/** The fragment of Python regular expressions the validator's patterns use,
    with the meaning `re.match` gives them.

    `Matches(r, s)` is the language of `r`: the set of strings the whole of
    which `r` can match. Python's engine backtracks through every alternative,
    so `re.match(r, s)` succeeds exactly when some prefix of `s` is in that
    language (`MatchPrefix`), and a pattern framed by `^` and `$` succeeds
    exactly when `s`, or `s` without one final line feed, is in it
    (`MatchLine`): Python's `$` also matches just before a newline that ends
    the string. Lazy quantifiers (`+?`) change which match is reported, not
    whether there is one, so they share `Plus`.
 */
module Regex {
  import opened CharClasses

  datatype Re =
    | Empty                   // the empty string
    | Char(c: char)           // one literal character, e.g. `@` or `\.`
    | Class(p: char -> bool)  // one character of a class, e.g. `\d` or `[a-zA-Z_]`
    | Cat(a: Re, b: Re)       // `ab`
    | Alt(a: Re, b: Re)       // `a|b`
    | Opt(a: Re)              // `a?`
    | Plus(a: Re)             // `a+` and `a+?`

  /** A literal string, written out character by character. */
  function Literal(w: string): Re
    decreases |w|
  {
    if |w| == 0 then Empty else Cat(Char(w[0]), Literal(w[1..]))
  }

  /** `a{lo,hi}`, unfolded into `lo` copies of `a` followed by `hi - lo` optional ones. */
  function Repeat(a: Re, lo: nat, hi: nat): Re
    requires lo <= hi
    decreases hi
  {
    if hi == 0 then Empty
    else if lo == 0 then Opt(Cat(a, Repeat(a, 0, hi - 1)))
    else Cat(a, Repeat(a, lo - 1, hi - 1))
  }

  /** `s` is in the language of `r`. The `Plus` case splits off a non-empty
      first piece, which describes the same strings as "one or more pieces". */
  ghost predicate Matches(r: Re, s: string)
    decreases r, |s|
  {
    match r
    case Empty => s == []
    case Char(c) => s == [c]
    case Class(p) => |s| == 1 && p(s[0])
    case Cat(a, b) => exists k :: 0 <= k <= |s| && Matches(a, s[..k]) && Matches(b, s[k..])
    case Alt(a, b) => Matches(a, s) || Matches(b, s)
    case Opt(a) => s == [] || Matches(a, s)
    case Plus(a) =>
      || Matches(a, s)
      || exists k :: 0 < k < |s| && Matches(a, s[..k]) && Matches(Plus(a), s[k..])
  }

  /** `re.match(r, s) is not None` for a pattern with no `$`: only the start is anchored. */
  ghost predicate MatchPrefix(r: Re, s: string) {
    exists k :: 0 <= k <= |s| && Matches(r, s[..k])
  }

  /** What a pattern ending in `$` must match in full: `s` without one final line feed. */
  function LineBody(s: string): (b: string)
    ensures s == b || s == b + "\n"
  {
    if |s| > 0 && s[|s| - 1] == '\n' then s[..|s| - 1] else s
  }

  /** `re.match("^" + r + "$", s) is not None`. */
  ghost predicate MatchLine(r: Re, s: string) {
    || Matches(r, s)
    || (|s| > 0 && s[|s| - 1] == '\n' && Matches(r, s[..|s| - 1]))
  }

  /** For a pattern that cannot match a string ending in a line feed, `$` just
      strips one final line feed from the subject. */
  lemma LineStrip(r: Re, s: string)
    requires |s| > 0 && s[|s| - 1] == '\n' ==> !Matches(r, s)
    ensures MatchLine(r, s) <==> Matches(r, LineBody(s))
  {
  }

  /** Concatenation with a one-character class on the left peels off the first character. */
  lemma CatClassLeft(p: char -> bool, b: Re, s: string)
    ensures Matches(Cat(Class(p), b), s) <==> |s| >= 1 && p(s[0]) && Matches(b, s[1..])
  {
    if Matches(Cat(Class(p), b), s) {
      var k :| 0 <= k <= |s| && Matches(Class(p), s[..k]) && Matches(b, s[k..]);
      assert k == 1;
    }
    if |s| >= 1 && p(s[0]) && Matches(b, s[1..]) {
      assert Matches(Class(p), s[..1]);
    }
  }

  /** Concatenation with a literal character on the left peels off that character. */
  lemma CatCharLeft(c: char, b: Re, s: string)
    ensures Matches(Cat(Char(c), b), s) <==> |s| >= 1 && s[0] == c && Matches(b, s[1..])
  {
    if Matches(Cat(Char(c), b), s) {
      var k :| 0 <= k <= |s| && Matches(Char(c), s[..k]) && Matches(b, s[k..]);
      assert |s[..k]| == 1;
    }
    if |s| >= 1 && s[0] == c && Matches(b, s[1..]) {
      assert s[..1] == [c];
      assert Matches(Char(c), s[..1]);
    }
  }

  /** A literal matches exactly its own text. */
  lemma {:induction false} LiteralMatches(w: string, s: string)
    ensures Matches(Literal(w), s) <==> s == w
    decreases |w|
  {
    if |w| > 0 {
      CatCharLeft(w[0], Literal(w[1..]), s);
      if |s| >= 1 {
        LiteralMatches(w[1..], s[1..]);
        if s[0] == w[0] && s[1..] == w[1..] {
          assert s == [s[0]] + s[1..];
          assert w == [w[0]] + w[1..];
        }
      }
    }
  }

  /** `[p]+` matches the non-empty strings made of characters of `p`. */
  lemma {:induction false} ClassPlusMatches(p: char -> bool, s: string)
    ensures Matches(Plus(Class(p)), s) <==> |s| >= 1 && All(s, p)
    decreases |s|
  {
    if |s| >= 2 {
      ClassPlusMatches(p, s[1..]);
      if Matches(Plus(Class(p)), s) {
        assert !Matches(Class(p), s);
        var k :| 0 < k < |s| && Matches(Class(p), s[..k]) && Matches(Plus(Class(p)), s[k..]);
        assert k == 1;
        assert forall i :: 1 <= i < |s| ==> s[i] == s[1..][i - 1];
      }
      if All(s, p) {
        assert Matches(Class(p), s[..1]);
        assert All(s[1..], p) by {
          forall i | 0 <= i < |s[1..]| ensures p(s[1..][i]) {
            assert s[1..][i] == s[i + 1];
          }
        }
      }
    }
  }

  /** `[p]{lo,hi}` matches the strings of `lo` to `hi` characters of `p`. */
  lemma {:induction false} ClassRepeatMatches(p: char -> bool, lo: nat, hi: nat, s: string)
    requires lo <= hi
    ensures Matches(Repeat(Class(p), lo, hi), s) <==> lo <= |s| <= hi && All(s, p)
    decreases hi
  {
    if hi > 0 {
      var lo' := if lo == 0 then 0 else lo - 1;
      var tail := Repeat(Class(p), lo', hi - 1);
      CatClassLeft(p, tail, s);
      if |s| >= 1 {
        ClassRepeatMatches(p, lo', hi - 1, s[1..]);
        assert All(s, p) <==> p(s[0]) && All(s[1..], p) by {
          if p(s[0]) && All(s[1..], p) {
            forall i | 0 <= i < |s| ensures p(s[i]) {
              if i > 0 {
                assert s[i] == s[1..][i - 1];
              }
            }
          }
          if All(s, p) {
            forall i | 0 <= i < |s[1..]| ensures p(s[1..][i]) {
              assert s[1..][i] == s[i + 1];
            }
          }
        }
      }
    }
  }
}
