/**
 * The string primitives the calendar code relies on: JavaScript's
 * String.prototype.trim, toLowerCase (on the characters that occur in the
 * data: ASCII and Hebrew) and Array.prototype.join.
 */
module Text {

  /**
   * The characters that String.prototype.trim removes and that the regular
   * expression class \s matches: ECMAScript WhiteSpace (tab, vertical tab,
   * form feed, the byte-order mark and every Zs space) and LineTerminator.
   */
  predicate IsWhitespace(c: char) {
    || c == '\t' || c == '\n' || c == '\U{000B}' || c == '\U{000C}' || c == '\r'
    || c == ' ' || c == '\U{00A0}' || c == '\U{1680}' || ('\U{2000}' <= c <= '\U{200A}')
    || c == '\U{2028}' || c == '\U{2029}' || c == '\U{202F}' || c == '\U{205F}'
    || c == '\U{3000}' || c == '\U{FEFF}'
  }

  predicate AllWhitespace(s: string) {
    forall i :: 0 <= i < |s| ==> IsWhitespace(s[i])
  }

  /** s without its leading whitespace. */
  function TrimStart(s: string): string
    decreases |s|
  {
    if s != [] && IsWhitespace(s[0]) then TrimStart(s[1..]) else s
  }

  /** s without its trailing whitespace. */
  function TrimEnd(s: string): string
    decreases |s|
  {
    if s != [] && IsWhitespace(s[|s| - 1]) then TrimEnd(s[..|s| - 1]) else s
  }

  /** String.prototype.trim. */
  function Trim(s: string): string {
    TrimStart(TrimEnd(s))
  }

  /** TrimStart removes exactly the leading whitespace: what is left is a suffix that does not start with whitespace. */
  lemma {:induction false} TrimStartSpec(s: string)
    ensures var r := TrimStart(s);
      && |r| <= |s| && r == s[|s| - |r|..]
      && AllWhitespace(s[..|s| - |r|])
      && (r == [] || !IsWhitespace(r[0]))
    decreases |s|
  {
    if s != [] && IsWhitespace(s[0]) {
      TrimStartSpec(s[1..]);
      var r := TrimStart(s);
      assert s[..|s| - |r|] == [s[0]] + s[1..][..|s| - 1 - |r|];
    }
  }

  /** TrimEnd removes exactly the trailing whitespace: what is left is a prefix that does not end with whitespace. */
  lemma {:induction false} TrimEndSpec(s: string)
    ensures var r := TrimEnd(s);
      && |r| <= |s| && r == s[..|r|]
      && AllWhitespace(s[|r|..])
      && (r == [] || !IsWhitespace(r[|r| - 1]))
    decreases |s|
  {
    if s != [] && IsWhitespace(s[|s| - 1]) {
      TrimEndSpec(s[..|s| - 1]);
      var r := TrimEnd(s);
      assert s[|r|..] == s[..|s| - 1][|r|..] + [s[|s| - 1]];
    }
  }

  /** trim returns the middle of s, stripped of whitespace at both ends. */
  lemma TrimSpec(s: string)
    ensures var r := Trim(s);
      && |r| <= |s|
      && (r == [] || (!IsWhitespace(r[0]) && !IsWhitespace(r[|r| - 1])))
  {
    TrimEndSpec(s);
    var e := TrimEnd(s);
    TrimStartSpec(e);
    var r := TrimStart(e);
    if r != [] {
      assert r[|r| - 1] == e[|e| - 1];
    }
  }

  /** Trimming is idempotent. */
  lemma TrimIdempotent(s: string)
    ensures Trim(Trim(s)) == Trim(s)
  {
    TrimSpec(s);
    var t := Trim(s);
    assert TrimEnd(t) == t;
  }

  lemma {:induction false} TrimEndPadding(u: string, b: string)
    requires u != [] && !IsWhitespace(u[|u| - 1]) && AllWhitespace(b)
    ensures TrimEnd(u + b) == u
    decreases |b|
  {
    if b == [] {
      assert u + b == u;
    } else {
      var s := u + b;
      assert IsWhitespace(s[|s| - 1]);
      assert s[..|s| - 1] == u + b[..|b| - 1];
      TrimEndPadding(u, b[..|b| - 1]);
    }
  }

  lemma {:induction false} TrimStartPadding(a: string, u: string)
    requires u != [] && !IsWhitespace(u[0]) && AllWhitespace(a)
    ensures TrimStart(a + u) == u
    decreases |a|
  {
    if a == [] {
      assert a + u == u;
    } else {
      var s := a + u;
      assert s[1..] == a[1..] + u;
      TrimStartPadding(a[1..], u);
    }
  }

  /**
   * Surrounding a string that neither starts nor ends with whitespace by any
   * amount of whitespace does not change what trim returns.
   */
  /** A string that neither starts nor ends with whitespace is its own trim. */
  lemma TrimUnpadded(u: string)
    ensures u != [] && !IsWhitespace(u[0]) && !IsWhitespace(u[|u| - 1]) ==> Trim(u) == u
  {
    if u != [] && !IsWhitespace(u[0]) && !IsWhitespace(u[|u| - 1]) {
      assert AllWhitespace("");
      assert "" + u + "" == u;
      TrimPadded("", u, "");
    }
  }

  lemma TrimPadded(a: string, u: string, b: string)
    requires AllWhitespace(a) && AllWhitespace(b)
    requires u != [] && !IsWhitespace(u[0]) && !IsWhitespace(u[|u| - 1])
    ensures Trim(a + u + b) == u
  {
    assert a + u != [] && (a + u)[|a + u| - 1] == u[|u| - 1];
    TrimEndPadding(a + u, b);
    TrimStartPadding(a, u);
  }

  /** A string of whitespace trims to the empty string. */
  lemma {:induction false} TrimWhitespace(s: string)
    requires AllWhitespace(s)
    ensures Trim(s) == []
  {
    TrimEndSpec(s);
    var r := TrimEnd(s);
    if r != [] {
      assert false;
    }
  }

  /** toLowerCase on one character: ASCII capitals move to lower case, all else is kept. */
  function LowerChar(c: char): char {
    if 'A' <= c <= 'Z' then (c as int + 32) as char else c
  }

  /** String.prototype.toLowerCase, restricted to ASCII case. */
  function Lower(s: string): string {
    seq(|s|, i requires 0 <= i < |s| => LowerChar(s[i]))
  }

  /** Array.prototype.join. */
  function Join(parts: seq<string>, sep: string): string
    decreases |parts|
  {
    if |parts| == 0 then ""
    else if |parts| == 1 then parts[0]
    else parts[0] + sep + Join(parts[1..], sep)
  }

  function TotalLength(parts: seq<string>): nat
    decreases |parts|
  {
    if parts == [] then 0 else |parts[0]| + TotalLength(parts[1..])
  }

  /**
   * Joining puts exactly one separator between neighbouring parts and none
   * before the first or after the last: the result starts with the first part,
   * ends with the last, and is as long as the parts plus |parts| - 1 separators.
   */
  lemma {:induction false} JoinShape(parts: seq<string>, sep: string)
    requires |parts| > 0
    ensures |Join(parts, sep)| == TotalLength(parts) + (|parts| - 1) * |sep|
    ensures |Join(parts, sep)| >= |parts[0]| && |Join(parts, sep)| >= |parts[|parts| - 1]|
    ensures Join(parts, sep)[..|parts[0]|] == parts[0]
    ensures Join(parts, sep)[|Join(parts, sep)| - |parts[|parts| - 1]|..] == parts[|parts| - 1]
    decreases |parts|
  {
    if |parts| == 1 {
      assert parts[1..] == [];
    } else {
      JoinShape(parts[1..], sep);
      var rest := Join(parts[1..], sep);
      assert Join(parts, sep) == parts[0] + sep + rest;
      assert parts[1..][|parts[1..]| - 1] == parts[|parts| - 1];
      var last := parts[|parts| - 1];
      assert rest[|rest| - |last|..] == last;
      assert (parts[0] + sep + rest)[|parts[0] + sep + rest| - |last|..] == rest[|rest| - |last|..];
    }
  }

  /**
   * Between neighbouring parts there is exactly one separator: the i-th part,
   * the separator and the (i+1)-th part sit side by side at the offset of the
   * i-th part, which is the length of the parts before it plus one separator
   * each. With the length given by JoinShape this fixes every character.
   */
  lemma JoinNeighbours(parts: seq<string>, sep: string, i: nat)
    requires i + 1 < |parts|
    ensures var p := TotalLength(parts[..i]) + i * |sep|;
      && p + |parts[i]| + |sep| + |parts[i + 1]| <= |Join(parts, sep)|
      && Join(parts, sep)[p..p + |parts[i]| + |sep| + |parts[i + 1]|] == parts[i] + sep + parts[i + 1]
  {
    var piece := parts[i] + sep + parts[i + 1];
    var after := parts[i..];
    assert after[0] == parts[i] && after[1] == parts[i + 1];
    JoinFirstNeighbours(after, sep);
    if i == 0 {
      assert after == parts;
    } else {
      var before := parts[..i];
      assert before + after == parts;
      JoinAppend(before, after, sep);
      JoinShape(before, sep);
      SeparatorsStep(i, |sep|);
      SliceAfter(Join(parts, sep), Join(before, sep) + sep, Join(after, sep), 0,
                 TotalLength(before) + i * |sep|, piece);
    }
  }

  /** The first two parts, with the separator between them, open a join of two or more parts. */
  lemma JoinFirstNeighbours(parts: seq<string>, sep: string)
    requires 2 <= |parts|
    ensures |parts[0]| + |sep| + |parts[1]| <= |Join(parts, sep)|
    ensures Join(parts, sep)[..|parts[0]| + |sep| + |parts[1]|] == parts[0] + sep + parts[1]
  {
    var rest := Join(parts[1..], sep);
    assert Join(parts, sep) == parts[0] + sep + rest;
    JoinShape(parts[1..], sep);
    assert rest[..|parts[1]|] == parts[1];
  }

  /** A piece found in the second half of a concatenation is found again, shifted by the first half's length. */
  lemma SliceAfter(whole: string, head: string, rest: string, q: nat, p: nat, piece: string)
    requires whole == head + rest && p == |head| + q
    requires q + |piece| <= |rest| && rest[q..q + |piece|] == piece
    ensures p + |piece| <= |whole| && whole[p..p + |piece|] == piece
  {
    assert whole[p..p + |piece|] == rest[q..q + |piece|];
  }

  /** One more part brings one more separator before it. */
  lemma SeparatorsStep(i: nat, width: nat)
    requires 0 < i
    ensures (i - 1) * width + width == i * width
  {
  }

  /** Joining a concatenation joins each half and puts one separator between them. */
  lemma {:induction false} JoinAppend(a: seq<string>, b: seq<string>, sep: string)
    requires a != [] && b != []
    ensures Join(a + b, sep) == Join(a, sep) + sep + Join(b, sep)
    decreases |a|
  {
    if |a| == 1 {
      assert (a + b)[1..] == b;
    } else {
      assert (a + b)[1..] == a[1..] + b;
      JoinAppend(a[1..], b, sep);
    }
  }

  /** Joining parts that are all non-empty gives "" exactly when there are no parts. */
  lemma JoinEmpty(parts: seq<string>, sep: string)
    requires forall i :: 0 <= i < |parts| ==> parts[i] != ""
    ensures Join(parts, sep) == "" <==> parts == []
  {
    if parts != [] {
      JoinShape(parts, sep);
      assert |Join(parts, sep)| >= |parts[0]| > 0;
    }
  }
}
