/** `DiscordAPI::sanitize`, the channel-name cleaner: replace every disallowed character
    (and `#`) by `-`, collapse runs of `-`, drop one leading and one trailing `-`, and
    lowercase. Characters are classified by their ASCII meaning; see `Allowed`. */
module Sanitize {

  /** The characters the first pattern keeps, `[\pN\p{Emoji}A-Za-z0-9\-]`, restricted to
      ASCII: letters, digits, `-`, and the two ASCII punctuation characters with the
      Unicode Emoji property, `#` and `*`. Every non-ASCII character counts as disallowed. */
  predicate Allowed(c: char) {
    ('a' <= c <= 'z') || ('A' <= c <= 'Z') || ('0' <= c <= '9') || c == '-' || c == '#' || c == '*'
  }

  /** The characters that survive sanitising as themselves (up to case). */
  predicate Kept(c: char) {
    Allowed(c) && c != '#' && c != '-'
  }

  predicate IsUpper(c: char) {
    'A' <= c <= 'Z'
  }

  /** A character of sanitised output: allowed, not `#`, not upper case. */
  predicate Clean(c: char) {
    Allowed(c) && c != '#' && !IsUpper(c)
  }

  predicate NoDoubleHyphen(s: string) {
    forall i :: 0 <= i < |s| - 1 ==> !(s[i] == '-' && s[i + 1] == '-')
  }

  /** The kept characters of `s`, in order. */
  function Keep(s: string): string
    decreases |s|
  {
    if |s| == 0 then [] else (if Kept(s[0]) then [s[0]] else []) + Keep(s[1..])
  }

  lemma {:induction false} KeepAppend(a: string, b: string)
    ensures Keep(a + b) == Keep(a) + Keep(b)
    decreases |a|
  {
    if |a| == 0 {
      assert a + b == b;
    } else {
      assert (a + b)[0] == a[0] && (a + b)[1..] == a[1..] + b;
      KeepAppend(a[1..], b);
    }
  }

  // ---------------------------------------------------------------------------
  // The stages
  // ---------------------------------------------------------------------------

  /** Stage 1: every disallowed character becomes `-`. */
  function ReplaceDisallowed(s: string): (r: string)
    decreases |s|
  {
    if |s| == 0 then [] else [if Allowed(s[0]) then s[0] else '-'] + ReplaceDisallowed(s[1..])
  }

  /** Stage 2: `#` becomes `-`. */
  function ReplaceHash(s: string): (r: string)
    decreases |s|
  {
    if |s| == 0 then [] else [if s[0] == '#' then '-' else s[0]] + ReplaceHash(s[1..])
  }

  /** Stage 3: every run of `-` becomes a single `-`. */
  function CollapseHyphens(s: string): (r: string)
    ensures |s| > 0 ==> |r| > 0 && r[0] == s[0] && r[|r| - 1] == s[|s| - 1]
    ensures forall c :: c in r ==> c in s
    ensures NoDoubleHyphen(r)
    decreases |s|
  {
    if |s| <= 1 then s
    else if s[0] == '-' && s[1] == '-' then CollapseHyphens(s[1..])
    else [s[0]] + CollapseHyphens(s[1..])
  }

  /** Collapsing keeps the non-hyphen characters, and leaves a string without `--` as it
      is. */
  lemma CollapseKeeps(s: string)
    ensures Keep(CollapseHyphens(s)) == Keep(s)
    ensures NoDoubleHyphen(s) ==> CollapseHyphens(s) == s
  {
    CollapseKeep(s);
    if NoDoubleHyphen(s) {
      CollapseIdentity(s);
    }
  }

  lemma {:induction false} CollapseKeep(s: string)
    ensures Keep(CollapseHyphens(s)) == Keep(s)
    decreases |s|
  {
    if |s| > 1 {
      var t := s[1..];
      CollapseKeep(t);
      assert Keep(s) == (if Kept(s[0]) then [s[0]] else []) + Keep(t);
      if s[0] == '-' && s[1] == '-' {
        assert !Kept(s[0]);
      } else {
        var r := [s[0]] + CollapseHyphens(t);
        assert r[0] == s[0] && r[1..] == CollapseHyphens(t);
      }
    }
  }

  lemma {:induction false} CollapseIdentity(s: string)
    requires NoDoubleHyphen(s)
    ensures CollapseHyphens(s) == s
    decreases |s|
  {
    if |s| > 1 {
      var t := s[1..];
      assert !(s[0] == '-' && s[1] == '-');
      assert NoDoubleHyphen(t) by {
        forall i | 0 <= i < |t| - 1 ensures !(t[i] == '-' && t[i + 1] == '-') {
          assert t[i] == s[i + 1] && t[i + 1] == s[i + 2];
        }
      }
      CollapseIdentity(t);
      assert s == [s[0]] + t;
    }
  }

  /** Stage 4: drop one leading `-`. */
  function TrimStart(s: string): string {
    if |s| > 0 && s[0] == '-' then s[1..] else s
  }

  /** Stage 5: drop one trailing `-`. */
  function TrimEnd(s: string): string {
    if |s| > 0 && s[|s| - 1] == '-' then s[..|s| - 1] else s
  }

  function Lower(c: char): char {
    if IsUpper(c) then (c as int - 'A' as int + 'a' as int) as char else c
  }

  /** Stage 6: lowercase. */
  function LowerAll(s: string): (r: string)
    decreases |s|
  {
    if |s| == 0 then [] else [Lower(s[0])] + LowerAll(s[1..])
  }

  function Sanitize(s: string): string {
    LowerAll(TrimEnd(TrimStart(CollapseHyphens(ReplaceHash(ReplaceDisallowed(s))))))
  }

  // ---------------------------------------------------------------------------
  // Stage lemmas
  // ---------------------------------------------------------------------------

  /** After the two replacement stages every character is allowed and none is `#`, the
      kept characters are untouched, and a string already in that shape is unchanged. */
  lemma {:induction false} ReplaceStages(s: string)
    ensures var r := ReplaceHash(ReplaceDisallowed(s));
      && |r| == |s|
      && (forall i :: 0 <= i < |r| ==> Allowed(r[i]) && r[i] != '#')
      && Keep(r) == Keep(s)
      && ((forall i :: 0 <= i < |s| ==> Allowed(s[i]) && s[i] != '#') ==> r == s)
    decreases |s|
  {
    if |s| > 0 {
      ReplaceStages(s[1..]);
      var r := ReplaceHash(ReplaceDisallowed(s));
      assert ReplaceDisallowed(s)[1..] == ReplaceDisallowed(s[1..]);
      assert r == [r[0]] + ReplaceHash(ReplaceDisallowed(s[1..]));
      if forall i :: 0 <= i < |s| ==> Allowed(s[i]) && s[i] != '#' {
        assert forall i :: 0 <= i < |s[1..]| ==> Allowed(s[1..][i]) && s[1..][i] != '#' by {
          forall i | 0 <= i < |s[1..]| ensures Allowed(s[1..][i]) && s[1..][i] != '#' {
            assert s[1..][i] == s[i + 1];
          }
        }
      }
    }
  }

  lemma {:induction false} LowerAllFacts(s: string)
    ensures var r := LowerAll(s);
      && |r| == |s|
      && (forall i :: 0 <= i < |s| ==> r[i] == Lower(s[i]))
      && Keep(r) == LowerAll(Keep(s))
    decreases |s|
  {
    if |s| > 0 {
      LowerAllFacts(s[1..]);
      var r := LowerAll(s);
      assert r[1..] == LowerAll(s[1..]);
      if Kept(s[0]) {
        assert Keep(s) == [s[0]] + Keep(s[1..]);
        assert LowerAll(Keep(s)) == [Lower(s[0])] + LowerAll(Keep(s[1..]));
      } else {
        assert Keep(s) == Keep(s[1..]);
      }
    }
  }

  lemma TrimStagesKeep(s: string)
    ensures Keep(TrimStart(s)) == Keep(s)
    ensures Keep(TrimEnd(s)) == Keep(s)
  {
    if |s| > 0 && s[|s| - 1] == '-' {
      assert s == s[..|s| - 1] + [s[|s| - 1]];
      KeepAppend(s[..|s| - 1], [s[|s| - 1]]);
      assert Keep([s[|s| - 1]]) == [];
    }
  }

  // ---------------------------------------------------------------------------
  // Properties of the whole pipeline
  // ---------------------------------------------------------------------------

  /** Every character allowed and none of them `#`. */
  predicate Prepared(s: string) {
    forall c :: c in s ==> Allowed(c) && c != '#'
  }

  /** The two trims on a collapsed string: no hyphen at either end, still no double
      hyphen, no new characters, and the kept characters untouched. */
  lemma TrimShape(b: string)
    requires NoDoubleHyphen(b)
    ensures var d := TrimEnd(TrimStart(b));
      && NoDoubleHyphen(d)
      && (|d| > 0 ==> d[0] != '-' && d[|d| - 1] != '-')
      && (forall c :: c in d ==> c in b)
      && Keep(d) == Keep(b)
  {
    var c := TrimStart(b);
    var off := if |b| > 0 && b[0] == '-' then 1 else 0;
    assert c == b[off..];
    assert NoDoubleHyphen(c) by {
      forall i | 0 <= i < |c| - 1 ensures !(c[i] == '-' && c[i + 1] == '-') {
        assert c[i] == b[i + off] && c[i + 1] == b[i + 1 + off];
      }
    }
    assert |c| > 0 ==> c[0] != '-';
    var d := TrimEnd(c);
    assert d == c[..|d|];
    assert NoDoubleHyphen(d) by {
      forall i | 0 <= i < |d| - 1 ensures !(d[i] == '-' && d[i + 1] == '-') {
        assert d[i] == c[i] && d[i + 1] == c[i + 1];
      }
    }
    assert |d| > 0 ==> d[|d| - 1] != '-' by {
      if |d| > 0 && |c| > 0 && c[|c| - 1] == '-' {
        assert d[|d| - 1] == c[|c| - 2];
      }
    }
    assert forall x :: x in d ==> x in b by {
      forall x | x in d ensures x in b {
        var i :| 0 <= i < |d| && d[i] == x;
        assert b[i + off] == x;
      }
    }
    TrimStagesKeep(b);
    TrimStagesKeep(c);
  }

  /** Lowercasing one character: a hyphen stays the only hyphen, and an allowed non-`#`
      character becomes a clean one. */
  lemma LowerChar(c: char)
    ensures (Lower(c) == '-') == (c == '-')
    ensures Allowed(c) && c != '#' ==> Clean(Lower(c))
  {
    if IsUpper(c) {
      assert 'a' <= Lower(c) <= 'z';
    }
  }

  lemma LowerAllShape(d: string)
    requires Prepared(d) && NoDoubleHyphen(d) && (|d| > 0 ==> d[0] != '-' && d[|d| - 1] != '-')
    ensures var r := LowerAll(d);
      && NoDoubleHyphen(r)
      && (|r| > 0 ==> r[0] != '-' && r[|r| - 1] != '-')
      && (forall i :: 0 <= i < |r| ==> Clean(r[i]))
      && Keep(r) == LowerAll(Keep(d))
  {
    var r := LowerAll(d);
    LowerAllFacts(d);
    forall i | 0 <= i < |r| ensures Clean(r[i]) && (r[i] == '-') == (d[i] == '-') {
      assert d[i] in d;
      LowerChar(d[i]);
    }
  }

  /** Sanitised output never holds two hyphens in a row, never starts or ends with one,
      and consists of allowed, lower-case, non-`#` characters; its non-hyphen characters
      are exactly the input's kept characters, lowercased, in order. */
  lemma SanitizeShape(s: string)
    ensures var r := Sanitize(s);
      && NoDoubleHyphen(r)
      && (|r| > 0 ==> r[0] != '-' && r[|r| - 1] != '-')
      && (forall i :: 0 <= i < |r| ==> Clean(r[i]))
      && Keep(r) == LowerAll(Keep(s))
  {
    var a := ReplaceHash(ReplaceDisallowed(s));
    assert Prepared(a) && Keep(a) == Keep(s) by {
      ReplacedIsPrepared(s);
    }
    var b := CollapseHyphens(a);
    assert Prepared(b) && NoDoubleHyphen(b) && Keep(b) == Keep(s) by {
      CollapseKeeps(a);
    }
    var d := TrimEnd(TrimStart(b));
    assert && Prepared(d) && NoDoubleHyphen(d) && (|d| > 0 ==> d[0] != '-' && d[|d| - 1] != '-')
           && Keep(d) == Keep(s)
    by {
      TrimShape(b);
    }
    LowerAllShape(d);
  }

  lemma ReplacedIsPrepared(s: string)
    ensures Prepared(ReplaceHash(ReplaceDisallowed(s)))
    ensures Keep(ReplaceHash(ReplaceDisallowed(s))) == Keep(s)
  {
    var a := ReplaceHash(ReplaceDisallowed(s));
    ReplaceStages(s);
    forall c | c in a ensures Allowed(c) && c != '#' {
      var i :| 0 <= i < |a| && a[i] == c;
    }
  }

  lemma {:induction false} LowerAllIdentity(s: string)
    requires forall i :: 0 <= i < |s| ==> !IsUpper(s[i])
    ensures LowerAll(s) == s
    decreases |s|
  {
    if |s| > 0 {
      assert forall i :: 0 <= i < |s[1..]| ==> !IsUpper(s[1..][i]) by {
        forall i | 0 <= i < |s[1..]| ensures !IsUpper(s[1..][i]) {
          assert s[1..][i] == s[i + 1];
        }
      }
      LowerAllIdentity(s[1..]);
    }
  }

  /** Sanitising is idempotent: a sanitised name is left as it is. */
  lemma SanitizeIdempotent(s: string)
    ensures Sanitize(Sanitize(s)) == Sanitize(s)
  {
    var r := Sanitize(s);
    SanitizeShape(s);
    ReplaceStages(r);
    assert ReplaceHash(ReplaceDisallowed(r)) == r;
    CollapseKeeps(r);
    assert CollapseHyphens(r) == r;
    assert TrimStart(r) == r;
    assert TrimEnd(r) == r;
    LowerAllIdentity(r);
  }

  /** A string with only allowed, non-`#` characters passes both replacement stages
      unchanged. */
  lemma {:induction false} ReplaceIdentity(s: string)
    requires forall i :: 0 <= i < |s| ==> Allowed(s[i]) && s[i] != '#'
    ensures ReplaceDisallowed(s) == s && ReplaceHash(s) == s
    decreases |s|
  {
    if |s| > 0 {
      assert forall i :: 0 <= i < |s[1..]| ==> Allowed(s[1..][i]) && s[1..][i] != '#' by {
        forall i | 0 <= i < |s[1..]| ensures Allowed(s[1..][i]) && s[1..][i] != '#' {
          assert s[1..][i] == s[i + 1];
        }
      }
      ReplaceIdentity(s[1..]);
    }
  }

  // ---------------------------------------------------------------------------
  // Reference definitions
  // ---------------------------------------------------------------------------

  /** Stage 1 and 2 together, character by character: each character stays exactly when
      it is allowed and not `#`, and otherwise becomes `-` in its place. */
  lemma {:induction false} ReplaceAt(s: string)
    ensures var r := ReplaceHash(ReplaceDisallowed(s));
      && |r| == |s|
      && forall i :: 0 <= i < |s| ==> r[i] == (if Allowed(s[i]) && s[i] != '#' then s[i] else '-')
    decreases |s|
  {
    if |s| > 0 {
      ReplaceAt(s[1..]);
      var r := ReplaceHash(ReplaceDisallowed(s));
      assert ReplaceDisallowed(s)[1..] == ReplaceDisallowed(s[1..]);
      assert r[1..] == ReplaceHash(ReplaceDisallowed(s[1..]));
      forall i | 1 <= i < |s| ensures r[i] == (if Allowed(s[i]) && s[i] != '#' then s[i] else '-') {
        assert r[i] == r[1..][i - 1] && s[i] == s[1..][i - 1];
      }
    }
  }

  /** Reference definition of stage 3, read left to right: a `-` that directly follows
      another `-` is dropped, every other character is copied. */
  function DropRepeatedHyphens(s: string, afterHyphen: bool): string
    decreases |s|
  {
    if |s| == 0 then []
    else if s[0] == '-' then (if afterHyphen then [] else ['-']) + DropRepeatedHyphens(s[1..], true)
    else [s[0]] + DropRepeatedHyphens(s[1..], false)
  }

  /** Collapsing is the reference: each run of `-` becomes exactly one `-`, in its place. */
  lemma {:induction false} CollapseIsDropRepeated(s: string)
    ensures CollapseHyphens(s) == DropRepeatedHyphens(s, false)
    decreases |s|, 0
  {
    if |s| > 0 {
      if s[0] == '-' {
        assert s == ['-'] + s[1..];
        CollapseAfterHyphen(s[1..]);
      } else if |s| > 1 {
        CollapseIsDropRepeated(s[1..]);
      }
    }
  }

  lemma {:induction false} CollapseAfterHyphen(u: string)
    ensures CollapseHyphens(['-'] + u) == ['-'] + DropRepeatedHyphens(u, true)
    decreases |u|, 1
  {
    var t := ['-'] + u;
    assert t[0] == '-' && t[1..] == u;
    if |u| > 0 {
      if u[0] == '-' {
        assert u == ['-'] + u[1..];
        CollapseAfterHyphen(u[1..]);
      } else {
        CollapseIsDropRepeated(u);
      }
    }
  }

  /** The two trims take away at most one character at each end of the string, and only
      a `-`: what remains is a contiguous slice. */
  lemma TrimSlice(b: string)
    ensures var d := TrimEnd(TrimStart(b));
      var i := if |b| > 0 && b[0] == '-' then 1 else 0;
      && i + |d| <= |b| <= i + |d| + 1
      && d == b[i..i + |d|]
      && (forall k :: 0 <= k < |b| && !(i <= k < i + |d|) ==> b[k] == '-')
  {
  }

  /** Reference definition of a sanitised name, read left to right: each kept character
      is copied in lower case, and a run of other characters becomes one `-`, but only
      between two kept characters. `gap` says that such a run has been seen since the last
      kept character, `started` that a kept character has been copied. */
  function Slug(s: string, gap: bool, started: bool): string
    decreases |s|
  {
    if |s| == 0 then []
    else if Kept(s[0]) then (if gap && started then ['-'] else []) + [Lower(s[0])] + Slug(s[1..], false, true)
    else Slug(s[1..], true, started)
  }

  /** `sanitize` is the reference: the input's words (maximal runs of kept characters),
      lowercased and joined by single hyphens. */
  lemma SanitizeIsSlug(s: string)
    ensures Sanitize(s) == Slug(s, false, false)
  {
    var t := ReplaceHash(ReplaceDisallowed(s));
    ReplacedIsPrepared(s);
    PipelineSlug(t);
    SlugReplaced(s, false, false);
  }

  /** The replacements do not change the reference: they only turn characters that are
      not kept into other characters that are not kept. */
  lemma {:induction false} SlugReplaced(s: string, gap: bool, started: bool)
    ensures Slug(ReplaceHash(ReplaceDisallowed(s)), gap, started) == Slug(s, gap, started)
    decreases |s|
  {
    if |s| > 0 {
      var t := ReplaceHash(ReplaceDisallowed(s));
      assert ReplaceDisallowed(s)[1..] == ReplaceDisallowed(s[1..]);
      assert t[1..] == ReplaceHash(ReplaceDisallowed(s[1..]));
      assert Kept(t[0]) <==> Kept(s[0]);
      assert Kept(s[0]) ==> t[0] == s[0];
      SlugReplaced(s[1..], false, true);
      SlugReplaced(s[1..], true, started);
    }
  }

  lemma PreparedTail(u: string)
    requires Prepared(u) && |u| > 0
    ensures Prepared(u[1..])
    ensures Kept(u[0]) || u[0] == '-'
  {
    assert u[0] in u;
    forall c | c in u[1..] ensures Allowed(c) && c != '#' {
      var i :| 0 <= i < |u[1..]| && u[1..][i] == c;
      assert u[i + 1] == c;
    }
  }

  lemma TrimEndCons(c: char, x: string)
    requires c != '-' || |x| > 0
    ensures TrimEnd([c] + x) == [c] + TrimEnd(x)
  {
    var y := [c] + x;
    if |x| > 0 && x[|x| - 1] == '-' {
      assert y[|y| - 1] == '-';
      assert y[..|y| - 1] == [c] + x[..|x| - 1];
    }
  }

  lemma LowerAllCons(c: char, x: string)
    ensures LowerAll([c] + x) == [Lower(c)] + LowerAll(x)
  {
    var y := [c] + x;
    assert y[0] == c && y[1..] == x;
  }

  /** Stages 3, 5 and 6 on a replaced string whose first kept character has been
      copied. */
  lemma {:induction false} SlugStarted(u: string)
    requires Prepared(u)
    ensures LowerAll(TrimEnd(CollapseHyphens(u))) == Slug(u, false, true)
    decreases |u|, 0
  {
    if |u| > 0 {
      PreparedTail(u);
      if Kept(u[0]) {
        var rest := CollapseHyphens(u[1..]);
        assert CollapseHyphens(u) == [u[0]] + rest by {
          if |u| == 1 { assert u == [u[0]] + u[1..]; }
        }
        TrimEndCons(u[0], rest);
        LowerAllCons(u[0], TrimEnd(rest));
        SlugStarted(u[1..]);
      } else {
        assert u == ['-'] + u[1..];
        SlugGap(u[1..]);
      }
    }
  }

  /** The same after a `-`, which becomes the separator if a kept character follows. */
  lemma {:induction false} SlugGap(u: string)
    requires Prepared(u)
    ensures LowerAll(TrimEnd(CollapseHyphens(['-'] + u))) == Slug(u, true, true)
    decreases |u|, 2
  {
    if |u| == 0 {
      assert CollapseHyphens(['-'] + u) == "-";
    } else {
      PreparedTail(u);
      if Kept(u[0]) {
        SlugGapKept(u);
      } else {
        assert CollapseHyphens(['-'] + u) == CollapseHyphens(u) by {
          var t := ['-'] + u;
          assert t[0] == '-' && t[1] == '-' && t[1..] == u;
        }
        assert u == ['-'] + u[1..];
        SlugGap(u[1..]);
      }
    }
  }

  lemma {:induction false} SlugGapKept(u: string)
    requires Prepared(u) && |u| > 0 && Kept(u[0])
    ensures LowerAll(TrimEnd(CollapseHyphens(['-'] + u))) == Slug(u, true, true)
    decreases |u|, 1
  {
    var rest := CollapseHyphens(u);
    assert CollapseHyphens(['-'] + u) == ['-'] + rest by {
      var t := ['-'] + u;
      assert t[0] == '-' && t[1] == u[0] && t[1..] == u;
    }
    assert LowerAll(TrimEnd(['-'] + rest)) == ['-'] + LowerAll(TrimEnd(rest)) by {
      assert |rest| > 0;
      TrimEndCons('-', rest);
      LowerAllCons('-', TrimEnd(rest));
    }
    assert LowerAll(TrimEnd(rest)) == Slug(u, false, true) by {
      SlugStarted(u);
    }
    assert Slug(u, true, true) == ['-'] + Slug(u, false, true) by {
      var tail := [Lower(u[0])] + Slug(u[1..], false, true);
      assert Slug(u, false, true) == [] + tail;
    }
  }

  /** The whole pipeline after the replacements is the reference. */
  lemma {:induction false} PipelineSlug(t: string)
    requires Prepared(t)
    ensures LowerAll(TrimEnd(TrimStart(CollapseHyphens(t)))) == Slug(t, false, false)
    decreases |t|
  {
    if |t| > 0 {
      PreparedTail(t);
      if Kept(t[0]) {
        assert TrimStart(CollapseHyphens(t)) == CollapseHyphens(t);
        SlugStarted(t);
      } else {
        var u := t[1..];
        assert t == ['-'] + u;
        if |u| == 0 {
          assert CollapseHyphens(t) == "-";
        } else {
          PreparedTail(u);
          if u[0] == '-' {
            assert CollapseHyphens(t) == CollapseHyphens(u);
            PipelineSlug(u);
          } else {
            var rest := CollapseHyphens(u);
            assert CollapseHyphens(t) == ['-'] + rest;
            assert TrimStart(['-'] + rest) == rest;
            SlugStarted(u);
          }
        }
      }
    }
  }

  /** The ASCII test vectors of the source's unit test. */
  lemma SanitizeExamples()
    ensures Sanitize("a") == "a"
    ensures Sanitize("b b") == "b-b"
    ensures Sanitize("-c") == "c"
    ensures Sanitize("--d--") == "d"
    ensures Sanitize("@#$a") == "a"
  {
    ExampleLetter();
    ExampleSpace();
    ExampleLeadingHyphen();
    ExampleHyphens();
    ExampleSymbols();
  }

  lemma ExampleLetter()
    ensures Sanitize("a") == "a"
  {
    ReplaceIdentity("a");
    assert LowerAll("a") == "a" by {
      assert "a"[1..] == [];
    }
  }

  lemma ExampleLeadingHyphen()
    ensures Sanitize("-c") == "c"
  {
    ReplaceIdentity("-c");
    assert TrimEnd(TrimStart("-c")) == "c";
    assert LowerAll("c") == "c" by {
      assert "c"[1..] == [];
    }
  }

  lemma ExampleSpace()
    ensures Sanitize("b b") == "b-b"
  {
    assert ReplaceDisallowed("b b") == "b-b" by {
      assert "b b"[1..] == " b" && " b"[1..] == "b" && "b"[1..] == [];
    }
    ReplaceIdentity("b-b");
    assert CollapseHyphens("b-b") == "b-b";
    assert LowerAll("b-b") == "b-b" by {
      assert "b-b"[1..] == "-b" && "-b"[1..] == "b" && "b"[1..] == [];
    }
  }

  lemma ExampleHyphens()
    ensures Sanitize("--d--") == "d"
  {
    HyphensReplaced();
    CollapseExample();
    assert TrimStart("-d-") == "d-";
    assert TrimEnd("d-") == "d";
    assert LowerAll("d") == "d" by {
      assert "d"[1..] == [];
    }
  }

  lemma HyphensReplaced()
    ensures ReplaceHash(ReplaceDisallowed("--d--")) == "--d--"
  {
    var s := "--d--";
    assert forall i :: 0 <= i < |s| ==> s[i] == '-' || s[i] == 'd';
    ReplaceIdentity(s);
  }

  lemma CollapseExample()
    ensures CollapseHyphens("--d--") == "-d-"
  {
    CollapseExampleTail();
    assert "--d--"[1..] == "-d--";
    assert "-d--"[1..] == "d--";
    assert CollapseHyphens("-d--") == ['-'] + CollapseHyphens("d--");
  }

  lemma CollapseExampleTail()
    ensures CollapseHyphens("d--") == "d-"
  {
    assert "--"[1..] == "-";
    assert CollapseHyphens("--") == "-";
    assert "d--"[1..] == "--";
    assert CollapseHyphens("d--") == ['d'] + CollapseHyphens("--");
  }

  lemma ExampleSymbols()
    ensures Sanitize("@#$a") == "a"
  {
    SymbolsReplaced();
    SymbolsHashReplaced();
    SymbolsCollapsed();
    assert TrimEnd(TrimStart("-a")) == "a";
    assert LowerAll("a") == "a" by {
      assert "a"[1..] == [];
    }
  }

  lemma SymbolsReplaced()
    ensures ReplaceDisallowed("@#$a") == "-#-a"
  {
    assert "@#$a"[1..] == "#$a" && "#$a"[1..] == "$a" && "$a"[1..] == "a" && "a"[1..] == [];
    assert ReplaceDisallowed("a") == "a";
    assert ReplaceDisallowed("$a") == "-a";
    assert ReplaceDisallowed("#$a") == "#-a";
  }

  lemma SymbolsHashReplaced()
    ensures ReplaceHash("-#-a") == "---a"
  {
    assert "-#-a"[1..] == "#-a" && "#-a"[1..] == "-a" && "-a"[1..] == "a" && "a"[1..] == [];
    assert ReplaceHash("a") == "a";
    assert ReplaceHash("-a") == "-a";
    assert ReplaceHash("#-a") == "--a";
  }

  lemma SymbolsCollapsed()
    ensures CollapseHyphens("---a") == "-a"
  {
    assert "---a"[1..] == "--a" && "--a"[1..] == "-a" && "-a"[1..] == "a";
    assert CollapseHyphens("-a") == "-a";
    assert CollapseHyphens("--a") == "-a";
  }
}
