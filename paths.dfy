/** File-system paths as strings, joined the way `Path::join` does on a Unix host. */
module Paths {

  const Separator: char := '/'

  predicate IsAbsolute(p: string) {
    |p| > 0 && p[0] == Separator
  }

  /** `base.join(name)`: an absolute `name` replaces `base`; otherwise `name` is
      appended, with one separator unless `base` is empty or already ends in one. */
  function Join(base: string, name: string): (r: string)
    ensures IsAbsolute(name) ==> r == name
    ensures !IsAbsolute(name) ==> |base| + |name| <= |r| && r[..|base|] == base && r[|r| - |name|..] == name
    ensures !IsAbsolute(name) && |base| > 0 && base[|base| - 1] != Separator ==> r == base + "/" + name
    ensures !IsAbsolute(name) && (|base| == 0 || base[|base| - 1] == Separator) ==> r == base + name
  {
    if IsAbsolute(name) then name
    else if |base| == 0 || base[|base| - 1] == Separator then base + name
    else base + [Separator] + name
  }
}
