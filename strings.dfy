/**
 * The parts of Go's `strings` and `strconv` packages the statement generator relies on:
 * joining with a separator, splitting on a character (the inverse of joining, used only in
 * proofs), base-10 rendering of integers and its parser, ASCII lower-casing and substring search.
 */
module Strings {
  import opened Wrappers

  // ---------------------------------------------------------------------------------------
  // strings.Join and its inverse
  // ---------------------------------------------------------------------------------------

  /** `strings.Join(parts, sep)`: the parts in order, with `sep` between neighbours. */
  function Join(parts: seq<string>, sep: string): string
  {
    if |parts| == 0 then ""
    else if |parts| == 1 then parts[0]
    else Join(parts[..|parts| - 1], sep) + sep + parts[|parts| - 1]
  }

  /** Joining one more part appends the separator and that part. */
  lemma JoinSnoc(parts: seq<string>, sep: string, last: string)
    requires |parts| > 0
    ensures Join(parts + [last], sep) == Join(parts, sep) + sep + last
  {
    assert (parts + [last])[..|parts|] == parts;
  }

  /** What a buffer that writes each part followed by `sep` (except after the last part) holds
      once the first `i` parts are written. */
  function JoinedUpTo(parts: seq<string>, sep: string, i: nat): string
    requires i <= |parts|
  {
    if i == 0 then "" else Join(parts[..i], sep) + (if i < |parts| then sep else "")
  }

  /** Writing part `i` (and the separator unless it is the last part) advances the buffer by
      one part; once every part is written the buffer holds their join. */
  lemma JoinedStep(parts: seq<string>, sep: string, i: nat)
    requires i < |parts|
    ensures i == |parts| - 1 ==> JoinedUpTo(parts, sep, i) + parts[i] == JoinedUpTo(parts, sep, i + 1)
    ensures i < |parts| - 1 ==> JoinedUpTo(parts, sep, i) + parts[i] + sep == JoinedUpTo(parts, sep, i + 1)
    ensures JoinedUpTo(parts, sep, |parts|) == Join(parts, sep)
  {
    assert parts[..i + 1] == parts[..i] + [parts[i]];
    if i > 0 {
      JoinSnoc(parts[..i], sep, parts[i]);
    } else {
      assert parts[..1] == [parts[0]];
    }
    assert parts[..|parts|] == parts;
  }

  /** `strings.Split(s, [c])`: the maximal pieces of `s` between occurrences of `c`. */
  function Split(s: string, c: char): (r: seq<string>)
    ensures |r| > 0
  {
    if |s| == 0 then [""]
    else
      var init := Split(s[..|s| - 1], c);
      if s[|s| - 1] == c then init + [""]
      else init[..|init| - 1] + [init[|init| - 1] + [s[|s| - 1]]]
  }

  /** Splitting one more character either opens a new piece or extends the last one. */
  lemma SplitSnoc(s: string, x: char, c: char)
    ensures var p := Split(s, c);
            Split(s + [x], c) == if x == c then p + [""] else p[..|p| - 1] + [p[|p| - 1] + [x]]
  {
    assert (s + [x])[..|s|] == s;
  }

  /** Sequence bookkeeping for extending the last piece twice. */
  lemma ExtendLast(p: seq<string>, u: string, x: char)
    requires |p| > 0
    ensures var q := p[..|p| - 1] + [p[|p| - 1] + u];
            q[..|q| - 1] + [q[|q| - 1] + [x]] == p[..|p| - 1] + [p[|p| - 1] + (u + [x])]
  {
    var q := p[..|p| - 1] + [p[|p| - 1] + u];
    assert q[..|q| - 1] == p[..|p| - 1];
    assert q[|q| - 1] + [x] == p[|p| - 1] + (u + [x]);
  }

  /** Appending text free of the separator extends the last piece. */
  lemma {:induction false} SplitAppendFree(a: string, t: string, c: char)
    requires c !in t
    ensures var p := Split(a, c);
            Split(a + t, c) == p[..|p| - 1] + [p[|p| - 1] + t]
    decreases |t|
  {
    var p := Split(a, c);
    if |t| == 0 {
      assert t == [];
      calc {
        p[..|p| - 1] + [p[|p| - 1] + t];
        { assert p[|p| - 1] + t == p[|p| - 1]; }
        p[..|p| - 1] + [p[|p| - 1]];
        p;
        { assert a + t == a; }
        Split(a + t, c);
      }
    } else {
      var t' := t[..|t| - 1];
      var x := t[|t| - 1];
      assert t == t' + [x];
      assert c !in t';
      SplitAppendFree(a, t', c);
      SplitSnoc(a + t', x, c);
      assert a + t == (a + t') + [x];
      ExtendLast(p, t', x);
    }
  }

  /** Splitting undoes joining when no part contains the separator. */
  lemma {:induction false} SplitJoin(parts: seq<string>, c: char)
    requires |parts| > 0
    requires forall i :: 0 <= i < |parts| ==> c !in parts[i]
    ensures Split(Join(parts, [c]), c) == parts
  {
    if |parts| == 1 {
      SplitAppendFree("", parts[0], c);
      assert "" + parts[0] == parts[0];
      assert Split("", c) == [""];
      assert [""][..0] + ["" + parts[0]] == [parts[0]];
      assert parts == [parts[0]];
    } else {
      var init := parts[..|parts| - 1];
      assert forall i :: 0 <= i < |init| ==> init[i] == parts[i];
      SplitJoin(init, c);
      SplitJoinSnoc(init, parts[|parts| - 1], c);
      assert init + [parts[|parts| - 1]] == parts;
    }
  }

  /** The inductive step of `SplitJoin`: one more separator-free part splits off as a piece. */
  lemma SplitJoinSnoc(init: seq<string>, last: string, c: char)
    requires |init| > 0 && c !in last
    requires Split(Join(init, [c]), c) == init
    ensures Split(Join(init + [last], [c]), c) == init + [last]
  {
    SplitSnoc(Join(init, [c]), c, c);
    var a := Join(init, [c]) + [c];
    SplitAppendFree(a, last, c);
    var P := init + [""];
    assert Split(a, c) == P;
    assert P[..|P| - 1] == init;
    assert P[|P| - 1] + last == last;
    JoinSnoc(init, [c], last);
  }

  // ---------------------------------------------------------------------------------------
  // strconv.FormatUint / FormatInt in base 10, and the matching parsers
  // ---------------------------------------------------------------------------------------

  predicate IsDigit(ch: char) { '0' as int <= ch as int <= '9' as int }

  predicate AllDigits(s: string) { forall i :: 0 <= i < |s| ==> IsDigit(s[i]) }

  function DigitChar(d: nat): (ch: char)
    requires d < 10
    ensures IsDigit(ch)
  {
    ('0' as int + d) as char
  }

  /** `strconv.FormatUint(n, 10)`: the shortest base-10 text of `n`. */
  function FormatNat(n: nat): (s: string)
    ensures |s| > 0 && AllDigits(s)
    decreases n
  {
    if n < 10 then [DigitChar(n)] else FormatNat(n / 10) + [DigitChar(n % 10)]
  }

  /** `strconv.FormatInt(i, 10)`: a minus sign before the digits of a negative number. */
  function FormatInt(i: int): string
  {
    if i < 0 then "-" + FormatNat(-i) else FormatNat(i)
  }

  function DigitsValue(s: string): nat
    requires AllDigits(s)
  {
    if |s| == 0 then 0
    else 10 * DigitsValue(s[..|s| - 1]) + (s[|s| - 1] as int - '0' as int)
  }

  /** Reads a non-empty run of base-10 digits. */
  function ParseNat(s: string): Option<nat>
  {
    if |s| > 0 && AllDigits(s) then Some(DigitsValue(s)) else None
  }

  /** Reads an optional minus sign followed by base-10 digits. */
  function ParseInt(s: string): Option<int>
  {
    if |s| > 0 && s[0] == '-' then
      match ParseNat(s[1..])
      case Some(n) => Some(-(n as int))
      case None => None
    else
      match ParseNat(s)
      case Some(n) => Some(n)
      case None => None
  }

  lemma {:induction false} ParseFormatNat(n: nat)
    ensures ParseNat(FormatNat(n)) == Some(n)
    decreases n
  {
    if n >= 10 {
      ParseFormatNat(n / 10);
      var s := FormatNat(n);
      assert s[..|s| - 1] == FormatNat(n / 10);
      assert s[|s| - 1] == DigitChar(n % 10);
      assert s[|s| - 1] as int - '0' as int == n % 10;
      assert DigitsValue(s) == 10 * (n / 10) + n % 10;
    }
  }

  lemma ParseFormatInt(i: int)
    ensures ParseInt(FormatInt(i)) == Some(i)
  {
    if i < 0 {
      ParseFormatNat(-i);
      assert FormatInt(i)[1..] == FormatNat(-i);
    } else {
      ParseFormatNat(i);
      assert FormatNat(i)[0] != '-' by { assert IsDigit(FormatNat(i)[0]); }
    }
  }

  /** Base-10 text never contains a comma, so it is safe inside a comma-joined list. */
  lemma FormatIntNoComma(i: int)
    ensures ',' !in FormatInt(i)
  {
    var s := FormatInt(i);
    forall k | 0 <= k < |s| ensures s[k] != ',' {
      if i < 0 && k > 0 {
        assert s[k] == FormatNat(-i)[k - 1];
      }
    }
  }

  // ---------------------------------------------------------------------------------------
  // strings.ToLower and strings.Contains
  // ---------------------------------------------------------------------------------------

  /** `strings.ToLower` restricted to ASCII letters; every other character is kept. */
  function ToLowerAscii(s: string): (r: string)
  {
    seq(|s|, i requires 0 <= i < |s| => if 'A' <= s[i] <= 'Z' then (s[i] as int + 32) as char else s[i])
  }

  /** `strings.Contains(s, sub)`: scans the start positions of `s` from the left. */
  predicate Contains(s: string, sub: string)
    decreases |s|
  {
    |sub| <= |s| && (s[..|sub|] == sub || Contains(s[1..], sub))
  }

  /** `sub` occurs in `s` starting at position `i`. */
  predicate OccursAt(s: string, sub: string, i: int)
  {
    0 <= i <= |s| - |sub| && s[i..i + |sub|] == sub
  }

  /** The scan agrees with the definition "some window of `s` equals `sub`", in both directions. */
  lemma {:induction false} ContainsWindow(s: string, sub: string)
    ensures Contains(s, sub) <==> exists i :: OccursAt(s, sub, i)
    decreases |s|
  {
    if |sub| <= |s| && s[..|sub|] != sub {
      ContainsWindow(s[1..], sub);
      if exists i :: OccursAt(s, sub, i) {
        var i :| OccursAt(s, sub, i);
        assert i != 0;
        assert s[1..][i - 1..i - 1 + |sub|] == s[i..i + |sub|];
        assert OccursAt(s[1..], sub, i - 1);
      }
      if Contains(s[1..], sub) {
        var j :| OccursAt(s[1..], sub, j);
        assert s[1..][j..j + |sub|] == s[j + 1..j + 1 + |sub|];
        assert OccursAt(s, sub, j + 1);
      }
    } else if |sub| <= |s| {
      assert OccursAt(s, sub, 0);
    }
  }
}
