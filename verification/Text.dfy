/** Strings as the Go standard library cuts, joins and prints them. */
module Text {

  datatype Option<+T> = None | Some(value: T) {
    function GetOr(default: T): T { if Some? then value else default }
  }

  /** strings.Split for a one-character separator: never empty, and [""] for "". */
  function Split(s: string, sep: char): (parts: seq<string>)
    ensures |parts| > 0
  {
    if s == "" then [""]
    else PutFirst(s[0], Split(s[1..], sep), sep)
  }

  /** What one more character in front does to the parts: open a new one, or lengthen the first. */
  function PutFirst(c: char, parts: seq<string>, sep: char): (r: seq<string>)
    requires |parts| > 0
    ensures |r| > 0
  {
    if c == sep then [""] + parts else [[c] + parts[0]] + parts[1..]
  }

  function Join(parts: seq<string>, sep: char): string
    requires |parts| > 0
  {
    if |parts| == 1 then parts[0] else parts[0] + [sep] + Join(parts[1..], sep)
  }

  ghost predicate FreeOf(s: string, sep: char) {
    sep !in s
  }

  lemma {:induction false} JoinOfSplit(s: string, sep: char)
    ensures Join(Split(s, sep), sep) == s
  {
    if s != "" {
      JoinOfSplit(s[1..], sep);
      var rest := Split(s[1..], sep);
      if s[0] == sep {
        assert ([""] + rest)[1..] == rest;
      } else {
        assert ([[s[0]] + rest[0]] + rest[1..])[1..] == rest[1..];
      }
    }
  }

  lemma {:induction false} SplitPartsFree(s: string, sep: char)
    ensures forall i :: 0 <= i < |Split(s, sep)| ==> FreeOf(Split(s, sep)[i], sep)
  {
    if s != "" {
      SplitPartsFree(s[1..], sep);
    }
  }

  lemma {:induction false} SplitFreeString(s: string, sep: char)
    requires FreeOf(s, sep)
    ensures Split(s, sep) == [s]
  {
    if s != "" {
      SplitFreeString(s[1..], sep);
      assert [s[0]] + s[1..] == s;
    }
  }

  lemma {:induction false} PutFirstConcat(c: char, left: seq<string>, right: seq<string>, sep: char)
    requires |left| > 0
    ensures PutFirst(c, left + right, sep) == PutFirst(c, left, sep) + right
  {
    assert (left + right)[1..] == left[1..] + right;
  }

  lemma {:induction false} SplitPutFirst(c: char, s: string, sep: char)
    ensures Split([c] + s, sep) == PutFirst(c, Split(s, sep), sep)
  {
    assert ([c] + s)[1..] == s;
  }

  /** Cutting at one separator cuts the two sides on their own. */
  lemma {:induction false} SplitConcat(left: string, right: string, sep: char)
    ensures Split(left + [sep] + right, sep) == Split(left, sep) + Split(right, sep)
  {
    if left == "" {
      assert left + [sep] + right == [sep] + right;
      SplitPutFirst(sep, right, sep);
      assert Split(left, sep) == [""];
    } else {
      var c, rest := left[0], left[1..];
      SplitConcat(rest, right, sep);
      assert left + [sep] + right == [c] + (rest + [sep] + right);
      assert left == [c] + rest;
      SplitPutFirst(c, rest + [sep] + right, sep);
      SplitPutFirst(c, rest, sep);
      PutFirstConcat(c, Split(rest, sep), Split(right, sep), sep);
    }
  }

  /** A separator-free head comes off as the first part. */
  lemma {:induction false} SplitHead(head: string, tail: string, sep: char)
    requires FreeOf(head, sep)
    ensures Split(head + [sep] + tail, sep) == [head] + Split(tail, sep)
  {
    SplitConcat(head, tail, sep);
    SplitFreeString(head, sep);
  }

  lemma {:induction false} SplitOfJoin(parts: seq<string>, sep: char)
    requires |parts| > 0 && forall i :: 0 <= i < |parts| ==> FreeOf(parts[i], sep)
    ensures Split(Join(parts, sep), sep) == parts
  {
    if |parts| == 1 {
      SplitFreeString(parts[0], sep);
    } else {
      SplitOfJoin(parts[1..], sep);
      SplitHead(parts[0], Join(parts[1..], sep), sep);
      assert [parts[0]] + parts[1..] == parts;
    }
  }

  lemma {:induction false} LastSeparatorAt(left: string, right: string, sep: char, at: nat)
    requires FreeOf(right, sep) && at < |left + [sep] + right| && (left + [sep] + right)[at] == sep
    ensures at <= |left|
  {
    var s := left + [sep] + right;
    assert forall i :: |left| < i < |s| ==> s[i] == right[i - |left| - 1] && s[i] in right;
  }

  /** What is after the last separator, and what is before it. */
  lemma {:induction false} LastSeparator(left: string, right: string, left': string, right': string, sep: char)
    requires left + [sep] + right == left' + [sep] + right' && FreeOf(right, sep) && FreeOf(right', sep)
    ensures left == left' && right == right'
  {
    var s := left + [sep] + right;
    LastSeparatorAt(left, right, sep, |left'|);
    LastSeparatorAt(left', right', sep, |left|);
    assert s[..|left|] == left && s[..|left|] == left';
    assert s[|left| + 1..] == right && s[|left| + 1..] == right';
  }

  // ---------- strings.Trim for one character ----------

  function TrimLeft(s: string, c: char): string {
    if s != "" && s[0] == c then TrimLeft(s[1..], c) else s
  }

  function TrimRight(s: string, c: char): string {
    if s != "" && s[|s| - 1] == c then TrimRight(s[..|s| - 1], c) else s
  }

  function Trim(s: string, c: char): string {
    TrimRight(TrimLeft(s, c), c)
  }

  function Repeat(c: char, n: nat): string {
    seq(n, _ => c)
  }

  lemma {:induction false} TrimLeftPadding(n: nat, s: string, c: char)
    requires s != "" && s[0] != c
    ensures TrimLeft(Repeat(c, n) + s, c) == s
  {
    if n == 0 {
      assert Repeat(c, n) + s == s;
    } else {
      TrimLeftPadding(n - 1, s, c);
      assert (Repeat(c, n) + s)[1..] == Repeat(c, n - 1) + s;
    }
  }

  lemma {:induction false} TrimRightPadding(s: string, n: nat, c: char)
    requires s != "" && s[|s| - 1] != c
    ensures TrimRight(s + Repeat(c, n), c) == s
  {
    if n == 0 {
      assert s + Repeat(c, n) == s;
    } else {
      TrimRightPadding(s, n - 1, c);
      var p := s + Repeat(c, n);
      assert p[..|p| - 1] == s + Repeat(c, n - 1);
    }
  }

  lemma {:induction false} TrimPadding(a: nat, s: string, b: nat, c: char)
    requires s != "" && s[0] != c && s[|s| - 1] != c
    ensures Trim(Repeat(c, a) + s + Repeat(c, b), c) == s
  {
    assert Repeat(c, a) + s + Repeat(c, b) == Repeat(c, a) + (s + Repeat(c, b));
    TrimLeftPadding(a, s + Repeat(c, b), c);
    TrimRightPadding(s, b, c);
  }

  // ---------- %d ----------

  function Decimal(n: nat): (s: string)
    ensures s != ""
    ensures forall ch :: ch in s ==> '0' <= ch <= '9'
  {
    var digit := '0' + (n % 10) as char;
    if n < 10 then [digit] else Decimal(n / 10) + [digit]
  }

  function Int(n: int): string {
    if n < 0 then "-" + Decimal(-n) else Decimal(n)
  }

  /** The number that a string of digits stands for. */
  ghost function Value(s: string): int {
    if s == "" then 0 else Value(s[..|s| - 1]) * 10 + (s[|s| - 1] as int - '0' as int)
  }

  lemma {:induction false} DecimalReads(n: nat)
    ensures Value(Decimal(n)) == n
    ensures n > 0 ==> Decimal(n)[0] != '0'
  {
    if n >= 10 {
      DecimalReads(n / 10);
    } else {
      assert Decimal(n)[..0] == "";
    }
  }

  lemma {:induction false} IntInjective(m: int, n: int)
    requires Int(m) == Int(n)
    ensures m == n
  {
    if m < 0 && n < 0 {
      assert Int(m)[1..] == Decimal(-m) && Int(n)[1..] == Decimal(-n);
      DecimalInjective(-m, -n);
    } else if m < 0 {
      assert Int(m)[0] == '-' && Decimal(n)[0] in Decimal(n);
    } else if n < 0 {
      assert Int(n)[0] == '-' && Decimal(m)[0] in Decimal(m);
    } else {
      DecimalInjective(m, n);
    }
  }

  lemma {:induction false} DecimalInjective(m: nat, n: nat)
    requires Decimal(m) == Decimal(n)
    ensures m == n
  {
    var s := Decimal(m);
    assert s[|s| - 1] == '0' + (m % 10) as char == '0' + (n % 10) as char;
    assert m % 10 == n % 10;
    if m >= 10 && n >= 10 {
      assert s[..|s| - 1] == Decimal(m / 10) == Decimal(n / 10);
      DecimalInjective(m / 10, n / 10);
    }
  }
}
