/**
 * The step both poster normalisers share: turn a trimmed URL into an absolute
 * `http://` or `https://` one (src/core/services/movie.service.ts and
 * src/movies/list/list.component.ts carry the same two regular-expression tests).
 */
module Urls {
  import Text

  /** ASCII lower case; the `i` flag of a non-Unicode regular expression folds only these letters here. */
  function LowerAscii(c: char): char {
    if 'A' <= c <= 'Z' then (c as int + 32) as char else c
  }

  /** `s` starts with `p`, ignoring the case of ASCII letters. */
  predicate StartsWithIgnoreCase(s: string, p: string) {
    |p| <= |s| && forall i :: 0 <= i < |p| ==> LowerAscii(s[i]) == LowerAscii(p[i])
  }

  /** The test `/^https?:\/\//i`. */
  predicate HasHttpScheme(u: string) {
    StartsWithIgnoreCase(u, "http://") || StartsWithIgnoreCase(u, "https://")
  }

  /** Any string that starts with `https://` exactly has an HTTP scheme. */
  lemma HttpsPrefixHasScheme(s: string)
    requires "https://" <= s
    ensures HasHttpScheme(s)
  {
    assert forall i :: 0 <= i < 8 ==> s[i] == "https://"[i];
  }

  /**
   * Makes a trimmed URL absolute: `//host/path` gets `https:` in front, and
   * anything without a case-insensitive `http://` or `https://` prefix gets
   * `https://` in front once its leading slashes are stripped.
   */
  function Absolutize(t: string): (r: string)
    ensures HasHttpScheme(r)
    ensures HasHttpScheme(t) ==> r == t
    ensures "//" <= t ==> r == "https:" + t
    ensures !("//" <= t) && !HasHttpScheme(t) ==> r == "https://" + Text.StripLeadingSlashes(t)
  {
    assert "//" <= t ==> !HasHttpScheme(t) by {
      if "//" <= t { assert t[0] == '/' && LowerAscii(t[0]) == '/'; }
    }
    var u := if "//" <= t then "https:" + t else t;
    assert "//" <= t ==> HasHttpScheme(u) by {
      if "//" <= t { HttpsPrefixHasScheme(u); }
    }
    if HasHttpScheme(u) then u
    else
      var r := "https://" + Text.StripLeadingSlashes(u);
      HttpsPrefixHasScheme(r);
      r
  }
}
