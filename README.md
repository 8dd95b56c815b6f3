# robber, modelled in Dafny

robber flattens a Cargo project into one Rust source file. Starting from the
root package, it walks the resolved dependency graph depth first. Each
dependency that is not one of three builtin crates is bundled once, after its
own dependencies. A package with a library target contributes a block
`pub mod <name> { use super::*; <library source> }`, with `-` in the name
replaced by `_`. The root package then contributes its binary source.

Each source file first goes through two rewrites:

- every body-less `mod name;` is filled with the items of `<dir>/name.rs`,
  which is expanded first, and every inline `mod tests { ... }` is emptied;
- every `include_str!("file")` invocation in the printed token stream is
  replaced by a string literal holding the file.

A separate optimizer pass rewrites a parsed file:

- it drops `doc` and `allow` attributes from the file and its functions;
- it drops `debug_assert!` and `debug_assert_eq!` statements;
- it turns indexed assignment targets `a[i][j]` into
  `*unsafe { a.get_unchecked_mut(i).get_unchecked_mut(j) }`;
- it counts what it removed.

The model has these modules:

- `Results`: `Option` and `Result`.
- `Paths`: `Path::join`.
- `Syntax`: the part of a parsed Rust file that the passes look at.
- `IncludeStr`: the `include_str!` rewrite. It is specified by the function
  `Expand`, and the loop `ProcessIncludeStr` is proved to compute it.
- `ModExpander`: the module expander, as functions on syntax values.
- `OptimizerPass`: the optimizer. Pure functions `Opt*` give the rewritten
  node and the counts it adds. The class `Optimizer` keeps the three counters
  in fields, and its methods are proved to compute those functions.
- `OptimizerExample`: the optimizer on the statement shapes of the fixture
  `tests/input/optimizer_indexing`.
- `Bundling`: the bundler. The functions `Bundle` and `BundleDeps` specify
  `bundle_package`, given any way `text` of producing a package's own text.
  The class `Bundler` holds `output` and `bundled`, and its methods are proved
  to compute those functions with the real text (`PackageText`). The
  properties of a run (order, once-only, closure, output layout) are lemmas
  about `Bundle`.

The outside world is given as values:

- the resolved dependency graph and package list (`Metadata`);
- each readable source path's parsed file (`Sources.parsed`);
- each includable path's contents (`Sources.texts`);
- the token stream a parsed file prints as (`Sources.tokens`).

A panic of the source is an `Err` of the model.

## Model

| member | source | states |
|---|---|---|
| Paths.Join | src/lib.rs:96 | an absolute name replaces the base; otherwise the result is the base followed by the name, with one `/` inserted between them exactly when the base is non-empty and does not end in one |
| IncludeStr.Escape | src/lib.rs:99 | `Literal::string`: the text between the quotes is at least as long as the value and at most twice as long; `EscapeRoundTrip` gives its meaning |
| IncludeStr.EscapeRoundTrip | src/lib.rs:99 | reading the literal's text back, a backslash and the character after it standing for one character, gives exactly the file contents |
| IncludeStr.Expand | src/lib.rs:81-120 | the corrected rewrite: its output holds no invocation at any depth, is empty exactly when the input is, and starts with a punctuation mark exactly when the input does |
| IncludeStr.ExpandIdempotent | src/lib.rs:84-117 | rewriting the rewrite's output again returns it unchanged |
| IncludeStr.ExpandAsWritten | src/lib.rs:81-120 | the rewrite as written: its output is empty exactly when its input is; its behaviour on `include_str` without punctuation is stated by `MacroIdentWithoutPunct` and `AsWrittenAltersNonInvocation` |
| IncludeStr.TrimQuotes | src/lib.rs:95 | `trim_matches('"')`: the result is a contiguous part of the input, everything cut on either side is quotes, and the result neither starts nor ends with a quote |
| IncludeStr.ProcessIncludeStr | src/lib.rs:81-120 | the token loop, with its lookahead of one or two tokens and its recursion into groups, returns exactly `Expand` of its input, failures included; `Expand` carries the correction of the first Findings row |
| IncludeStr.VerbatimWithoutInvocation | src/lib.rs:84-117 | a stream in which no `include_str` identifier is followed by punctuation, at any depth, comes out unchanged |
| IncludeStr.CopiesTokenForToken | src/lib.rs:110-116 | without a top-level `include_str` identifier, the output has the input's length, every non-group token is copied in place, and every group keeps its delimiter and gets its rewritten stream; the rewrite succeeds iff every group's rewrite succeeds |
| IncludeStr.ExpandConcat | src/lib.rs:84-117 | a prefix without a top-level `include_str` is rewritten independently of what follows, so relative order is kept and the first failure in stream order is reported |
| IncludeStr.InvocationBecomesLiteral | src/lib.rs:87-101 | `include_str` + punctuation + group becomes one string literal holding the file at `base` joined with the quote-trimmed text of the group's first token; an empty group or a missing file is the corresponding failure |
| IncludeStr.InvocationPrinted | src/lib.rs:92-99 | a stream with one invocation of a readable file, and nothing failing around it, prints with the file's contents, escaped and between quotes, as a contiguous part of its text |
| IncludeStr.InvocationWithoutGroupFails | src/lib.rs:89-102 | `include_str` + punctuation followed by a non-group token, or by nothing, fails and reports that token or its absence |
| IncludeStr.LoneMacroIdentKept | src/lib.rs:87-109 | corrected rewrite: `include_str` not followed by punctuation is kept once, and rewriting resumes at the very next token |
| IncludeStr.MacroIdentWithoutPunct | src/lib.rs:103-108 | the rewrite as written: `include_str` followed by a non-punctuation token `t` yields `include_str, t, include_str` with `t` not rewritten; at the end of the stream it yields `include_str, include_str` |
| IncludeStr.AsWrittenAltersNonInvocation | src/lib.rs:103-116 | `fn include_str() {}` holds no invocation, yet the rewrite as written returns a different stream; the corrected rewrite returns it unchanged |
| ModExpander.ExpandFile | src/lib.rs:70-72 | the visit of a whole file keeps its attributes and its number of items, and leaves every module it reaches with an inline body |
| ModExpander.ExpandItems | src/lib.rs:136-138 | on success there are as many items as before, each keeps its kind, attributes, visibility and name, and every module is loaded |
| ModExpander.ExpandItem | src/lib.rs:136-138 | `visit_item_mut`: on success the item keeps its kind, attributes, visibility and name, and every module in it is loaded |
| ModExpander.VisitItemMod | src/lib.rs:128-140 | `visit_item_mod_mut`: the header is unchanged and, on success, the module and every module inside it has an inline body |
| ModExpander.ExpandMods | src/lib.rs:155-180 | an inline `tests` module is emptied; any other inline module is returned as it is; a body-less module succeeds only if `<base>/<name>.rs` exists and is not already being expanded, and then its items are fully loaded; the header never changes |
| ModExpander.InlineModule | src/lib.rs:135-139 | an inline module named `tests` ends with no items; any other inline module keeps its header and gets its items' expansion, or fails as that expansion does |
| ModExpander.BodylessModule | src/lib.rs:164-179 | a body-less module is filled from `<base>/<name>.rs`, using the same base, and from no other path; a missing file fails naming that path; the file's expanded items are visited again, which empties the inline `tests` modules among them |
| ModExpander.SecondVisitStripsTests | src/lib.rs:135-139 | on items already loaded, the visit reads no file and only empties the `tests` modules, whatever the file map and base |
| ModExpander.StripItemsIdempotent | src/lib.rs:159-160 | emptying `tests` modules twice is the same as once |
| ModExpander.TestsFileKeptAtTop | src/lib.rs:157-179 | a `mod tests;` in the file being processed keeps the items of its file |
| ModExpander.NestedTestsFileEmptied | src/lib.rs:135-139 | a `mod tests;` inside a module that is itself read from a file is emptied, because the second visit of the loaded items treats it as an inline `tests` module; only a `mod tests;` in the file being processed keeps its items |
| Bundling.FindNode | src/lib.rs:35 | `iter().find`: the first resolve node with the given id, or none when no node has it |
| Bundling.FindPackage | src/lib.rs:47 | `metadata[pkg]`: the first package with the given id, or none when no package has it |
| Bundling.FindTarget | src/lib.rs:47-53 | `iter().find`: the first target listing the given kind, or none when no target lists it |
| Bundling.BuiltinByName | src/lib.rs:58-61 | `is_builtin` (`IsBuiltin`): true exactly for an edge named `rand`, `log` or `env_logger`, whatever package the edge leads to; `BuiltinEdgesNotFollowed` shows such an edge is never followed |
| Bundling.Parent | src/lib.rs:68 | `Path::parent`: absent exactly for the empty path and for `/`; otherwise `""` without a separator, `/` when the only separator is the first character, and else everything before the last separator |
| Bundling.ParentOfJoin | src/lib.rs:68 | the parent of a directory joined with a plain file name is that directory |
| Bundling.SanitizeName | src/lib.rs:48 | `replace('-', "_")`: same length, each `-` becomes `_` and every other character is kept |
| Bundling.SanitizedNameHasNoHyphen | src/lib.rs:48 | the emitted module name contains no `-` |
| Bundling.SanitizeNameIdempotent | src/lib.rs:48 | sanitising twice is sanitising once |
| Bundling.SanitizeKeepsPlainName | src/lib.rs:48 | a name without `-` is emitted as it is |
| Bundling.LibBlockLayout | src/lib.rs:47-51 | a library block (`LibBlock`) is exactly `pub mod `, the sanitised name, ` {\nuse super::*;\n`, the processed source and `\n}\n`, each part readable back at its place |
| Bundling.LibText | src/lib.rs:47-51 | nothing without a library target; with one, its block around the processed source, failing exactly when processing the source fails and with that error |
| Bundling.SourceText | src/lib.rs:63-78 | an unreadable path fails as unreadable and a path without a parent directory fails as such |
| Bundling.SourceTextStages | src/lib.rs:63-78 | once the file is read, a module-expansion failure surfaces as `ModError` and an `include_str!` failure as `IncludeFailed`; success means every stage succeeded and the text is the printed expanded stream |
| Bundling.IncludedFileInSource | src/lib.rs:63-78 | a source file whose printed tokens hold `include_str!` of a readable file is appended with that file's contents, escaped and between quotes |
| Bundling.SourceWithoutIncludes | src/lib.rs:70-77 | a file whose expanded tokens hold no invocation is appended as those tokens print |
| Bundling.PackageText | src/lib.rs:47-55 | a package missing from the package list is a failure |
| Bundling.PackageTextParts | src/lib.rs:47-55 | case by case: a failing library text fails the package with its error; a non-root package contributes exactly its library text (`LibText`) and no binary; a root without a binary target fails with `NoBinTarget`; a root's binary source failure is its failure, and otherwise its text is the library text followed by the binary's source |
| Bundling.RootText | src/lib.rs:52-55 | for the root, the package's text is its library block followed by the source of its first binary target, which must exist |
| Bundling.Bundle | src/lib.rs:33-56 | `bundle_package`: on success the bundled set only grows, the old output is a prefix of the new one, and the package itself comes last in the order of bundled packages |
| Bundling.BundleDeps | src/lib.rs:36-46 | the dependency loop only grows the bundled set and only appends to the output |
| Bundling.BundleOrder | src/lib.rs:40-45 | the packages bundled before the package itself are pairwise distinct and are exactly the ones newly marked bundled |
| Bundling.BundleDepsOrder | src/lib.rs:36-46 | the packages the loop bundles are pairwise distinct and are exactly the ones it newly marks bundled |
| Bundling.BuiltinEdgesNotFollowed | src/lib.rs:36-46 | every package a call bundles is reached from the package it starts from over edges not named `rand`, `log` or `env_logger`, so a builtin edge is never followed |
| Bundling.BuiltinEdgesNotFollowedInDeps | src/lib.rs:36-46 | every package the loop bundles is reached over non-builtin edges from the target of a non-builtin edge at or after the loop's index |
| Bundling.BundleClosed | src/lib.rs:36-46 | every non-builtin edge out of a package bundled in the run leads to a package marked bundled |
| Bundling.BundleDepsClosed | src/lib.rs:36-46 | the same for the dependency loop, and every non-builtin dependency from the loop's index on ends up bundled |
| Bundling.ClosedContainsReachable | src/lib.rs:36-46 | a set closed under non-builtin edges contains everything reachable from its members |
| Bundling.EveryReachablePackageBundled | src/lib.rs:15-16 | a successful run bundles every package reachable from the root over non-builtin edges, with the root last |
| Bundling.BundledIffReachable | src/lib.rs:36-46 | a successful run from the root bundles a package exactly when the root reaches it over non-builtin edges |
| Bundling.ReachableBundled | src/lib.rs:33-56 | the same for any way of producing package texts |
| Bundling.EachPackageBundledOnce | src/lib.rs:40-45 | no package, the root included, appears twice in the order of a successful run from the root |
| Bundling.OutputFollowsOrder | src/lib.rs:36-55 | the output appended for a package is the texts of its newly bundled dependencies, in bundling order, followed by its own text |
| Bundling.DepsOutputFollowsOrder | src/lib.rs:36-46 | the dependency loop appends the texts of the packages it bundles, in bundling order |
| Bundling.FollowedEdgeOutput | src/lib.rs:43-45 | the same, for the step of the loop that follows an edge |
| Bundling.RootTextLast | src/lib.rs:15-17 | the output of a successful run ends with the root's own text |
| Bundling.RootBinaryLast | src/lib.rs:47-55 | the output of a successful run ends with the root's library block followed by its binary source |
| Bundling.RootBundledTwiceOnCycle | src/lib.rs:15-16 | as written, on the cycle a → b → a, `a` is bundled twice and its library block is emitted twice |
| Bundling.RootBundledOnceOnCycle | src/lib.rs:15-16 | with the root marked bundled first, the same graph bundles b and then a, and emits a's library block once |
| Bundling.BundleFromRoot | src/lib.rs:15-17 | the corrected `bundle`: on success the root is bundled, comes last, and the output is the texts of the other bundled packages in bundling order followed by the root's text |
| Bundling.BundleFromRootAsWritten | src/lib.rs:15-16 | `bundle` as written, the root not marked bundled: on success the root comes last |
| Bundling.Bundler.constructor | src/lib.rs:26-31 | a new bundler has empty output and nothing bundled |
| Bundling.Bundler.ProcessSource | src/lib.rs:63-78 | fails exactly when `SourceText` fails, with its error; otherwise it appends `SourceText` to the output; the bundled set is unchanged |
| Bundling.Bundler.BundlePackage | src/lib.rs:33-56 | succeeds exactly when `Bundle` from the current state does, with the same error, and then the bundler's new state is the one `Bundle` reaches |
| Bundling.Bundler.EmitLib | src/lib.rs:47-51 | appends the library block (`LibText`) or nothing when there is no library, and fails as the library source does |
| Bundling.Bundler.EmitPackage | src/lib.rs:47-55 | appends the package's own text (`PackageText`), failing exactly when it does |
| Bundling.BundleCrate | src/lib.rs:15-17 | returns the output of `BundleFromRoot`, or its error |
| OptimizerPass.Retain | src/optimizer.rs:23 | `Vec::retain`: no longer than its input, and every element kept satisfies the predicate |
| OptimizerPass.RetainMembers | src/optimizer.rs:23 | an element is kept iff it is in the input and satisfies the predicate |
| OptimizerPass.RetainConcat | src/optimizer.rs:23 | filtering distributes over concatenation, so relative order is kept |
| OptimizerPass.RetainAll | src/optimizer.rs:23 | when every element satisfies the predicate, the sequence is unchanged |
| OptimizerPass.RetainAttrs | src/optimizer.rs:137-144 | the kept attributes are `Retain` of the input by `KeptAttr`, so by `RetainMembers` and `RetainConcat` exactly the other attributes stay, in order; no `doc` or `allow` remains, and removed plus kept is the original number |
| OptimizerPass.OptLvalue | src/optimizer.rs:78-135 | at the outermost level the result is never an indexing; a non-indexing is left unchanged and adds nothing to the counts |
| OptimizerPass.OptExpr | src/optimizer.rs:29-35 | a macro expression is left alone; no other expression becomes a macro |
| OptimizerPass.IndexChainRoundTrip | src/optimizer.rs:78-85 | splitting a target into its base and indices and indexing again gives back the target |
| OptimizerPass.InnerLvalueIsUncheckedChain | src/optimizer.rs:81-107 | below the outermost level, `b[i1]...[in]` becomes `b.get_unchecked_mut(i1)...get_unchecked_mut(in)`, counting n bound checks |
| OptimizerPass.LvalueIsUncheckedChain | src/optimizer.rs:81-129 | an indexed assignment target becomes that chain wrapped exactly once in `*unsafe { ... }`, counting one bound check per index |
| OptimizerPass.OptStmt | src/optimizer.rs:22-27 | visiting a statement keeps its kind and does not change whether it is a debug assertion |
| OptimizerPass.OptStmtsPointwise | src/optimizer.rs:24-26 | each statement of a sequence is visited independently of the others |
| OptimizerPass.OptBlock | src/optimizer.rs:22-27 | a visited block has as many statements as are not debug assertions, and counts at least one debug assertion per dropped statement |
| OptimizerPass.OptBlockKeeps | src/optimizer.rs:22-27 | a visited block holds exactly the visits of its statements that are not debug assertions, in order, and counts each dropped statement |
| OptimizerPass.OptItem | src/optimizer.rs:45-48 | a function keeps its visibility and name and loses exactly its `doc` and `allow` attributes, keeping the others in order; a module keeps its header and its number of items; a body-less module and any other item are untouched |
| OptimizerPass.OptFile | src/optimizer.rs:37-43 | the file keeps exactly its non-`doc`/`allow` attributes in order and its number of items, counting each dropped attribute |
| OptimizerPass.OptExprClean | src/optimizer.rs:29-35 | after the visit no visited assignment target is an indexing and no visited block holds a debug assertion |
| OptimizerPass.OptFileClean | src/optimizer.rs:37-48 | after the pass, no `doc` or `allow` attribute remains on the file or its functions, no debug assertion remains, and no assignment target is an indexing |
| OptimizerPass.CleanFileFixed | src/optimizer.rs:37-48 | a file the pass has nothing to do on is returned unchanged with zero counts |
| OptimizerPass.OptFileIdempotent | src/optimizer.rs:4-12 | running the pass on its own output changes nothing and removes nothing |
| OptimizerPass.Optimizer.constructor | src/optimizer.rs:5-9 | all three counters start at zero |
| OptimizerPass.Optimizer.IsDebugAssert | src/optimizer.rs:52-59 | true exactly for the paths `debug_assert` and `debug_assert_eq`, which add one to the debug-assertion counter |
| OptimizerPass.Optimizer.FilterOutStmt | src/optimizer.rs:61-76 | true exactly for a debug-assertion macro statement, with or without `;`, which is counted |
| OptimizerPass.Optimizer.RetainAttribute | src/optimizer.rs:137-144 | keeps an attribute unless its path is `doc` or `allow`, counting each one dropped |
| OptimizerPass.Optimizer.RetainAttributes | src/optimizer.rs:38 | the loop keeps exactly `RetainAttrs` and adds its count |
| OptimizerPass.Optimizer.RetainStatements | src/optimizer.rs:23 | the loop keeps exactly the statements that are not debug assertions, in order, and adds the number it dropped |
| OptimizerPass.Optimizer.OptimizeLvalue | src/optimizer.rs:78-135 | returns `OptLvalue` and adds its bound-check count |
| OptimizerPass.Optimizer.VisitFile | src/optimizer.rs:37-43 | returns `OptFile` and adds its counts to the counters |
| OptimizerPass.Optimizer.VisitItems | src/optimizer.rs:40-42 | the loop over items returns `OptItems` and adds its counts |
| OptimizerPass.Optimizer.VisitItem | src/optimizer.rs:40-48 | the dispatch of `visit_item_mut`: returns `OptItem` and adds its counts |
| OptimizerPass.Optimizer.VisitItemFn | src/optimizer.rs:45-48 | a function loses its `doc` and `allow` attributes and has its body visited, per `OptItem`, with the counts added |
| OptimizerPass.Optimizer.VisitBlock | src/optimizer.rs:22-27 | returns `OptBlock` and adds its counts |
| OptimizerPass.Optimizer.VisitStmts | src/optimizer.rs:24-26 | the loop over statements returns `OptStmts` and adds its counts |
| OptimizerPass.Optimizer.VisitStmt | src/optimizer.rs:24-26 | `visit_stmt_mut`: returns `OptStmt` and adds its counts |
| OptimizerPass.Optimizer.VisitExpr | src/optimizer.rs:29-35 | the traversal of an expression: returns `OptExpr` and adds its counts |
| OptimizerPass.Optimizer.VisitExprAssign | src/optimizer.rs:29-31 | an assignment has its target rewritten and its right-hand side untouched, per `OptExpr` |
| OptimizerPass.Optimizer.VisitExprAssignOp | src/optimizer.rs:33-35 | the same for a compound assignment |
| OptimizerPass.Optimize | src/optimizer.rs:4-12 | a fresh optimizer returns `OptFile` of the file, and its counters end at `OptFile`'s counts |
| OptimizerExample.IndexedAssignment | tests/input/optimizer_indexing/src/main.rs:4 | `a[i] = rhs;` becomes `*unsafe { a.get_unchecked_mut(i) } = rhs;` with one bound check removed |
| OptimizerExample.NestedIndexedAssignment | tests/input/optimizer_indexing/src/main.rs:11 | `a[i][j] = rhs;` becomes `*unsafe { a.get_unchecked_mut(i).get_unchecked_mut(j) } = rhs;` with two bound checks removed |
| OptimizerExample.NestedIndexedCompoundAssignment | tests/input/optimizer_indexing/src/main.rs:13 | the same for `a[i][j] += rhs;` |
| OptimizerExample.IndexedReadKept | tests/input/optimizer_indexing/src/main.rs:16 | `let x = a[i][j];` keeps its checked indexing and removes nothing |
| OptimizerExample.AssertEqKeptDebugAssertDropped | tests/input/optimizer_indexing/src/main.rs:6 | an `assert_eq!` statement is kept, and a `debug_assert!` statement before it is dropped and counted |

## Left out

- Running `cargo metadata` and choosing the root (src/lib.rs:8-14) are left
  out. The resolved graph and the root id are inputs. A missing `resolve`
  section is not modelled; a package missing from it is `NotInResolve`.
- File reading (`read_file`, `read_to_string`) is replaced by maps from
  path to parsed file and from path to contents.
- Parsing (`syn::parse_file`) and printing (`into_token_stream`,
  `format!("{}", tokens)`) are replaced by the given parsed files, the given
  token function and `StreamText`. The printed spacing between tokens is a
  choice of the model.
- IncludeStr.Escape: a string literal made from a file escapes the quote,
  the backslash, newline, carriage return and tab. Other control and
  non-printable characters, which `escape_debug` writes as `\0` or `\u{...}`,
  are kept as they are.
- Spans and the token-span plumbing of src/optimizer.rs:88-124 are left
  out, and so are all `eprintln!` diagnostics.
- The commented-out `visit_expr_macro_mut` (src/lib.rs:142-151) is left
  out.
- `Path::parent` is modelled on `/`-separated strings. Normalising trailing
  or repeated separators and `.` components is left out.
- The `<name>/mod.rs` candidate of `expand_mods` (src/lib.rs:167) is never
  read by the code, because the lazy iterator stops at the first candidate
  and `read_file` panics when that file is missing. The model reads only
  `<base>/<name>.rs`.
- ModExpander.ExpandMods: when a file's expansion reaches a `mod` of that
  same file again, the code recurses forever. The model reports this as
  `RecursiveMod` instead of diverging.
- Items other than modules and functions (impl and trait blocks, structs,
  and so on) are opaque `Verbatim` items. Neither pass looks into them,
  although syn's default traversal would visit the functions inside impl
  blocks.
- The optimizer's `u64` counters are unbounded `nat`s, so overflow is not
  modelled.
- Nothing in src/lib.rs calls `optimize`, so the optimizer is a standalone
  transformation.
- Inline `tests` modules are emptied as the code does, whatever their
  attributes.
- Bundling.Bundle: "dependencies before dependents" is stated as the order
  in which packages finish (`OutputFollowsOrder`). When the graph has a
  cycle, a package can finish before a dependency that is still in progress,
  so this is not stated as a fact about the graph.

## Findings

| source | as written | input that shows it | evidently intended | confidence | as-written member | corrected member |
|---|---|---|---|---|---|---|
| src/lib.rs:103-116 | `include_str` not followed by punctuation pushes itself, then the next token unprocessed, then falls through and pushes itself again | `fn include_str() {}` comes out as `fn include_str () include_str {}` | the identifier passes through unchanged, and the next token is processed as usual | high; not executed | IncludeStr.AsWrittenAltersNonInvocation | IncludeStr.VerbatimWithoutInvocation |
| src/lib.rs:15-16 | the root is bundled without being put in `bundled`, so a dependency edge back to the root bundles it again | root `a` with a library depends on `b`, and `b` has a dev-dependency on `a`: the order is a, b, a and `pub mod a` is emitted twice | every package is emitted once, the root included | medium (needs a dev-dependency cycle between workspace members); not executed | Bundling.RootBundledTwiceOnCycle | Bundling.EachPackageBundledOnce |

The first finding's as-written rewrite is `IncludeStr.ExpandAsWritten`. The
corrected rewrite `IncludeStr.Expand` is what `ProcessIncludeStr` and the
bundler use. For the second finding, `Bundling.BundleFromRootAsWritten`
starts with nothing bundled. `Bundling.BundleFromRoot` and `BundleCrate`
mark the root bundled first. `bundle_package` itself (`Bundler.BundlePackage`)
is modelled as written. `RootBundledOnceOnCycle` shows the corrected run on
the same graph.
