/** The string functions of Go's standard library that the modelled code relies
    on: strings.Trim/TrimRight with a one-character cutset, strings.Split and
    SplitN, strings.Join, strings.ToLower (ASCII letters only), the byte-wise
    ordering used by sort.Strings, strconv.Itoa/Atoi and the `%q` quoting. */
module Strings {
  import opened Wrappers

  // ---------------------------------------------------------------------------
  // Trimming

  /** Drops every leading `c`. */
  function TrimLeft(s: string, c: char): (r: string)
    ensures |r| <= |s| && r == s[|s| - |r|..]
    ensures r != [] ==> r[0] != c
    ensures forall i :: 0 <= i < |s| - |r| ==> s[i] == c
    decreases |s|
  {
    if s != [] && s[0] == c then TrimLeft(s[1..], c) else s
  }

  /** Drops every trailing `c` (strings.TrimRight(s, "c")). */
  function TrimRight(s: string, c: char): (r: string)
    ensures |r| <= |s| && r == s[..|r|]
    ensures r != [] ==> r[|r| - 1] != c
    ensures forall i :: |r| <= i < |s| ==> s[i] == c
    decreases |s|
  {
    if s != [] && s[|s| - 1] == c then TrimRight(s[..|s| - 1], c) else s
  }

  /** strings.Trim(s, "c"): drops every leading and trailing `c`. */
  function Trim(s: string, c: char): (r: string)
    ensures r != [] ==> r[0] != c && r[|r| - 1] != c
    ensures |r| <= |s|
  {
    TrimRight(TrimLeft(s, c), c)
  }

  /** What Trim keeps is the middle of `s`, and what it drops is all `c`. */
  lemma TrimIsInfix(s: string, c: char) returns (k: nat)
    ensures k + |Trim(s, c)| <= |s|
    ensures s[k..k + |Trim(s, c)|] == Trim(s, c)
    ensures forall i :: 0 <= i < k ==> s[i] == c
    ensures forall i :: k + |Trim(s, c)| <= i < |s| ==> s[i] == c
  {
    var l := TrimLeft(s, c);
    k := |s| - |l|;
    var r := Trim(s, c);
    assert s[k..k + |r|] == l[..|r|];
  }

  /** A string with no `c` at either end is left alone; in particular one
      without any `c`. */
  lemma {:induction false} TrimUnchanged(s: string, c: char)
    requires s == [] || (s[0] != c && s[|s| - 1] != c)
    ensures Trim(s, c) == s
  {
  }

  /** Trimming twice is trimming once. */
  lemma TrimIdempotent(s: string, c: char)
    ensures Trim(Trim(s, c), c) == Trim(s, c)
  {
    TrimUnchanged(Trim(s, c), c);
  }

  // ---------------------------------------------------------------------------
  // Searching, splitting and joining

  /** The index of the first `c` in `s`, if any. */
  function IndexOf(s: string, c: char): (r: Option<nat>)
    ensures r.None? <==> c !in s
    ensures r.Some? ==> r.value < |s| && s[r.value] == c && c !in s[..r.value]
    decreases |s|
  {
    if s == [] then None
    else if s[0] == c then Some(0)
    else match IndexOf(s[1..], c)
      case None => None
      case Some(i) =>
        assert s[..i + 1] == [s[0]] + s[1..][..i];
        Some(i + 1)
  }

  /** strings.Join: the parts with `sep` between consecutive ones. */
  function Join(parts: seq<string>, sep: string): string
    decreases |parts|
  {
    if parts == [] then ""
    else if |parts| == 1 then parts[0]
    else parts[0] + sep + Join(parts[1..], sep)
  }

  /** strings.Split on one character: the maximal `c`-free pieces of `s`. */
  function Split(s: string, c: char): (r: seq<string>)
    ensures |r| >= 1
    ensures forall i :: 0 <= i < |r| ==> c !in r[i]
    decreases |s|
  {
    match IndexOf(s, c)
    case None => [s]
    case Some(i) => [s[..i]] + Split(s[i + 1..], c)
  }

  /** Join undoes Split: no character is lost or added. */
  lemma {:induction false} JoinSplit(s: string, c: char)
    ensures Join(Split(s, c), [c]) == s
    decreases |s|
  {
    match IndexOf(s, c)
    case None =>
    case Some(i) =>
      JoinSplit(s[i + 1..], c);
      var r := Split(s, c);
      assert r[1..] == Split(s[i + 1..], c);
      assert s == s[..i] + [c] + s[i + 1..];
  }

  /** strings.SplitN with n >= 1: at most n pieces, only the first n - 1
      occurrences of `c` split, the last piece keeps the rest. */
  function SplitN(s: string, c: char, n: nat): (r: seq<string>)
    requires n >= 1
    ensures 1 <= |r| <= n
    ensures forall i :: 0 <= i < |r| - 1 ==> c !in r[i]
    ensures |r| < n ==> c !in r[|r| - 1]
    decreases n
  {
    if n == 1 then [s]
    else match IndexOf(s, c)
      case None => [s]
      case Some(i) =>
        var rest := SplitN(s[i + 1..], c, n - 1);
        var r := [s[..i]] + rest;
        assert r[1..] == rest;
        r
  }

  /** Join undoes SplitN: no character is lost or added. */
  lemma {:induction false} JoinSplitN(s: string, c: char, n: nat)
    requires n >= 1
    ensures Join(SplitN(s, c, n), [c]) == s
    decreases n
  {
    if n > 1 && IndexOf(s, c).Some? {
      var i := IndexOf(s, c).value;
      var a, b := s[..i], s[i + 1..];
      var rest := SplitN(b, c, n - 1);
      assert Join(rest, [c]) == b by { JoinSplitN(b, c, n - 1); }
      assert SplitN(s, c, n) == [a] + rest by { SplitNAt(s, c, n); }
      assert Join([a] + rest, [c]) == a + [c] + Join(rest, [c]) by { JoinCons(a, rest, [c]); }
      assert s == a + [c] + b by {
        PieceAround(s, i);
      }
    }
  }

  lemma PieceAround(s: string, i: nat)
    requires i < |s|
    ensures s == s[..i] + [s[i]] + s[i + 1..]
  {
  }

  /** One step of SplitN at the first `c`. */
  lemma SplitNAt(s: string, c: char, n: nat)
    requires n > 1 && IndexOf(s, c).Some?
    ensures SplitN(s, c, n) == [s[..IndexOf(s, c).value]] + SplitN(s[IndexOf(s, c).value + 1..], c, n - 1)
  {
  }

  /** Join of a part in front of a non-empty list. */
  lemma JoinCons(a: string, rest: seq<string>, sep: string)
    requires rest != []
    ensures Join([a] + rest, sep) == a + sep + Join(rest, sep)
  {
    assert ([a] + rest)[1..] == rest;
  }

  /** SplitN at a first `c` peels off the piece in front of it. */
  lemma SplitNCons(a: string, b: string, c: char, n: nat)
    requires c !in a && n >= 2
    ensures SplitN(a + [c] + b, c, n) == [a] + SplitN(b, c, n - 1)
  {
    var s := a + [c] + b;
    assert s[|a|] == c && s[..|a|] == a && s[|a| + 1..] == b;
  }

  /** A string without `c` is one piece for SplitN. */
  lemma SplitNSingle(a: string, c: char, n: nat)
    requires c !in a && n >= 1
    ensures SplitN(a, c, n) == [a]
  {
  }

  /** SplitN into three: the third piece keeps any further `c`. */
  lemma SplitNThree(a: string, b: string, k: string, c: char)
    requires c !in a && c !in b
    ensures SplitN(a + [c] + b + [c] + k, c, 3) == [a, b, k]
  {
    assert SplitN(b + [c] + k, c, 2) == [b, k] by {
      SplitNCons(b, k, c, 2);
    }
    assert a + [c] + b + [c] + k == a + [c] + (b + [c] + k);
    SplitNCons(a, b + [c] + k, c, 3);
  }

  /** SplitN into at most three of a string with one `c` gives two pieces. */
  lemma SplitNTwo(a: string, b: string, c: char)
    requires c !in a && c !in b
    ensures SplitN(a + [c] + b, c, 3) == [a, b]
  {
    assert SplitN(b, c, 2) == [b] by {
      SplitNSingle(b, c, 2);
    }
    SplitNCons(a, b, c, 3);
  }

  /** Splitting `a c b` where neither part holds `c` gives back the parts. */
  lemma SplitPair(a: string, b: string, c: char)
    requires c !in a && c !in b
    ensures Split(a + [c] + b, c) == [a, b]
  {
    var s := a + [c] + b;
    assert s[|a|] == c && s[..|a|] == a && s[|a| + 1..] == b;
  }

  /** A string without `c` splits into itself. */
  lemma SplitSingle(a: string, c: char)
    requires c !in a
    ensures Split(a, c) == [a]
  {
  }

  /** Splitting at a first `c` peels off the piece in front of it. */
  lemma SplitCons(a: string, b: string, c: char)
    requires c !in a
    ensures Split(a + [c] + b, c) == [a] + Split(b, c)
  {
    var s := a + [c] + b;
    assert s[|a|] == c && s[..|a|] == a && s[|a| + 1..] == b;
  }

  /** Joining a concatenation puts one separator between the two joins. */
  lemma {:induction false} JoinAppend(xs: seq<string>, ys: seq<string>, sep: string)
    requires xs != [] && ys != []
    ensures Join(xs + ys, sep) == Join(xs, sep) + sep + Join(ys, sep)
    decreases |xs|
  {
    if |xs| > 1 {
      assert (xs + ys)[1..] == xs[1..] + ys;
      JoinAppend(xs[1..], ys, sep);
    } else {
      assert (xs + ys)[1..] == ys;
    }
  }

  /** Split undoes Join when no piece holds the separator. */
  lemma {:induction false} SplitJoin(parts: seq<string>, c: char)
    requires parts != []
    requires forall i :: 0 <= i < |parts| ==> c !in parts[i]
    ensures Split(Join(parts, [c]), c) == parts
    decreases |parts|
  {
    if |parts| == 1 {
      SplitSingle(parts[0], c);
    } else {
      SplitJoin(parts[1..], c);
      SplitCons(parts[0], Join(parts[1..], [c]), c);
      assert parts == [parts[0]] + parts[1..];
    }
  }

  /** Non-empty `c`-free pieces join into a string that neither starts nor
      ends with `c`, so trimming `c` leaves it alone. */
  lemma {:induction false} JoinEnds(parts: seq<string>, c: char)
    requires parts != []
    requires forall i :: 0 <= i < |parts| ==> parts[i] != [] && c !in parts[i]
    ensures Join(parts, [c]) != []
    ensures Join(parts, [c])[0] != c && Join(parts, [c])[|Join(parts, [c])| - 1] != c
    ensures Trim(Join(parts, [c]), c) == Join(parts, [c])
    decreases |parts|
  {
    var j := Join(parts, [c]);
    assert parts[0][0] in parts[0];
    if |parts| > 1 {
      JoinEnds(parts[1..], c);
      var t := Join(parts[1..], [c]);
      assert j == parts[0] + [c] + t;
      assert j[|j| - 1] == t[|t| - 1];
    } else {
      assert parts[0][|parts[0]| - 1] in parts[0];
    }
    TrimUnchanged(j, c);
  }

  // ---------------------------------------------------------------------------
  // Case

  predicate IsLower(s: string)
  {
    forall i :: 0 <= i < |s| ==> !('A' <= s[i] <= 'Z')
  }

  function LowerChar(ch: char): (r: char)
    ensures !('A' <= r <= 'Z')
    ensures !('A' <= ch <= 'Z') ==> r == ch
  {
    if 'A' <= ch <= 'Z' then (ch as int + 32) as char else ch
  }

  /** strings.ToLower restricted to ASCII letters. */
  function ToLower(s: string): (r: string)
    ensures |r| == |s| && IsLower(r)
    ensures IsLower(s) ==> r == s
    ensures forall i :: 0 <= i < |s| ==> (r[i] == '/' <==> s[i] == '/')
  {
    seq(|s|, i requires 0 <= i < |s| => LowerChar(s[i]))
  }

  // ---------------------------------------------------------------------------
  // Ordering and sorting

  /** The order of sort.Strings: lexicographic on characters, a proper prefix
      first. Dafny's characters are Unicode scalar values, whose order is the
      byte order of their UTF-8 encodings that Go compares. */
  predicate LexLess(a: string, b: string)
    decreases |a|
  {
    if a == [] then b != []
    else b != [] && (a[0] < b[0] || (a[0] == b[0] && LexLess(a[1..], b[1..])))
  }

  lemma {:induction false} LexLessIrreflexive(a: string)
    ensures !LexLess(a, a)
    decreases |a|
  {
    if a != [] {
      LexLessIrreflexive(a[1..]);
    }
  }

  lemma {:induction false} LexLessAsymmetric(a: string, b: string)
    requires LexLess(a, b)
    ensures !LexLess(b, a)
    decreases |a|
  {
    if a != [] && a[0] == b[0] {
      LexLessAsymmetric(a[1..], b[1..]);
    }
  }

  lemma {:induction false} LexLessTransitive(a: string, b: string, c: string)
    requires LexLess(a, b) && LexLess(b, c)
    ensures LexLess(a, c)
    decreases |a|
  {
    if a != [] && a[0] == b[0] && b[0] == c[0] {
      LexLessTransitive(a[1..], b[1..], c[1..]);
    }
  }

  lemma {:induction false} LexLessTotal(a: string, b: string)
    requires a != b
    ensures LexLess(a, b) || LexLess(b, a)
    decreases |a|
  {
    if a != [] && b != [] && a[0] == b[0] {
      assert a == [a[0]] + a[1..] && b == [b[0]] + b[1..];
      LexLessTotal(a[1..], b[1..]);
    }
  }

  predicate StrictlySorted(s: seq<string>)
  {
    forall i, j :: 0 <= i < j < |s| ==> LexLess(s[i], s[j])
  }

  predicate IsLeast(m: string, s: set<string>)
  {
    m in s && forall x :: x in s && x != m ==> LexLess(m, x)
  }

  /** Every non-empty finite set of strings has a least element. */
  lemma {:induction false} LeastExists(s: set<string>)
    requires s != {}
    ensures exists m :: IsLeast(m, s)
    decreases |s|
  {
    var x :| x in s;
    if s != {x} {
      LeastExists(s - {x});
      var m :| IsLeast(m, s - {x});
      if LexLess(x, m) {
        forall y | y in s && y != x
          ensures LexLess(x, y)
        {
          if y != m {
            LexLessTransitive(x, m, y);
          }
        }
        assert IsLeast(x, s);
      } else {
        LexLessTotal(x, m);
        assert IsLeast(m, s);
      }
    } else {
      assert IsLeast(x, s);
    }
  }

  /** The elements of `s` in ascending order, each once. */
  ghost function SortedOf(s: set<string>): (r: seq<string>)
    ensures StrictlySorted(r)
    ensures forall x :: x in r <==> x in s
    decreases |s|
  {
    if s == {} then []
    else
      LeastExists(s);
      var m :| IsLeast(m, s);
      var rest := SortedOf(s - {m});
      assert forall j :: 0 <= j < |rest| ==> rest[j] in s - {m} && LexLess(m, rest[j]);
      assert forall j :: 0 < j < |[m] + rest| ==> ([m] + rest)[j] == rest[j - 1];
      [m] + rest
  }

  /** Two strictly sorted sequences with the same elements are equal: the
      sorted order of a set is unique. */
  lemma {:induction false} SortedUnique(r1: seq<string>, r2: seq<string>)
    requires StrictlySorted(r1) && StrictlySorted(r2)
    requires forall x :: x in r1 <==> x in r2
    ensures r1 == r2
    decreases |r1|
  {
    if r1 != [] {
      assert r1[0] in r1;
    }
    if r2 != [] {
      assert r2[0] in r2;
    }
    if r1 != [] && r2 != [] {
      if r1[0] != r2[0] {
        var i :| 0 <= i < |r2| && r2[i] == r1[0];
        var j :| 0 <= j < |r1| && r1[j] == r2[0];
        assert LexLess(r2[0], r1[0]);
        assert LexLess(r1[0], r2[0]);
        LexLessAsymmetric(r1[0], r2[0]);
      }
      forall x
        ensures x in r1[1..] <==> x in r2[1..]
      {
        LexLessIrreflexive(x);
        if x in r1[1..] {
          var i :| 0 <= i < |r1[1..]| && r1[1..][i] == x;
          assert LexLess(r1[0], r1[i + 1]);
          assert x in r2;
          var k :| 0 <= k < |r2| && r2[k] == x;
          assert k != 0;
          assert r2[1..][k - 1] == x;
        }
        if x in r2[1..] {
          var i :| 0 <= i < |r2[1..]| && r2[1..][i] == x;
          assert LexLess(r2[0], r2[i + 1]);
          assert x in r1;
          var k :| 0 <= k < |r1| && r1[k] == x;
          assert k != 0;
          assert r1[1..][k - 1] == x;
        }
      }
      SortedUnique(r1[1..], r2[1..]);
      assert r1 == [r1[0]] + r1[1..] && r2 == [r2[0]] + r2[1..];
    }
  }

  /** Collects the elements of `s` and sorts them (the key loop in front of
      sort.Strings), by repeatedly taking the least element not yet taken. */
  method SortStrings(s: set<string>) returns (r: seq<string>)
    ensures r == SortedOf(s)
  {
    r := [];
    var rest := s;
    while rest != {}
      invariant forall x :: x in s <==> (x in r || x in rest)
      invariant forall x :: x in r ==> x !in rest
      invariant StrictlySorted(r)
      invariant forall i, y :: 0 <= i < |r| && y in rest ==> LexLess(r[i], y)
      decreases |rest|
    {
      LeastExists(rest);
      var m :| IsLeast(m, rest);
      r := r + [m];
      rest := rest - {m};
    }
    SortedUnique(r, SortedOf(s));
  }

  // ---------------------------------------------------------------------------
  // Decimal numbers: strconv.Itoa and strconv.Atoi

  predicate IsDigit(ch: char)
  {
    '0' <= ch <= '9'
  }

  predicate AllDigits(s: string)
  {
    forall i :: 0 <= i < |s| ==> IsDigit(s[i])
  }

  function DigitsValue(s: string): nat
    requires AllDigits(s)
    decreases |s|
  {
    if s == [] then 0 else DigitsValue(s[..|s| - 1]) * 10 + (s[|s| - 1] as int - '0' as int)
  }

  function NatToString(n: nat): (r: string)
    ensures r != [] && AllDigits(r)
    decreases n
  {
    (if n < 10 then "" else NatToString(n / 10)) + [('0' as int + n % 10) as char]
  }

  /** strconv.Itoa */
  function Itoa(i: int): (r: string)
    ensures r != []
  {
    if i < 0 then "-" + NatToString(-i) else NatToString(i)
  }

  const MinInt64: int := -0x8000_0000_0000_0000
  const MaxInt64: int := 0x7fff_ffff_ffff_ffff

  /** strconv.Atoi on a 64-bit platform: an optional sign, at least one
      decimal digit and nothing else, in the range of int64. */
  function Atoi(s: string): (r: Option<int>)
    ensures r.Some? ==> MinInt64 <= r.value <= MaxInt64
    ensures r.Some? ==> s != [] && (IsDigit(s[0]) || s[0] == '+' || s[0] == '-')
  {
    var signed := s != [] && (s[0] == '+' || s[0] == '-');
    var body := if signed then s[1..] else s;
    if body == [] || !AllDigits(body) then None
    else
      var v: int := if signed && s[0] == '-' then -(DigitsValue(body) as int) else DigitsValue(body);
      if MinInt64 <= v <= MaxInt64 then Some(v) else None
  }

  lemma {:induction false} DigitsOfNatToString(n: nat)
    ensures DigitsValue(NatToString(n)) == n
    decreases n
  {
    var r := NatToString(n);
    assert r[..|r| - 1] == if n < 10 then "" else NatToString(n / 10);
    if n >= 10 {
      DigitsOfNatToString(n / 10);
    }
  }

  /** Atoi reads back what Itoa wrote, for every int64. */
  lemma AtoiItoa(i: int)
    requires MinInt64 <= i <= MaxInt64
    ensures Atoi(Itoa(i)) == Some(i)
  {
    var s := Itoa(i);
    if i < 0 {
      var body := NatToString(-i);
      DigitsOfNatToString(-i);
      assert s == "-" + body && s[1..] == body;
      assert s[0] == '-';
    } else {
      var body := NatToString(i);
      DigitsOfNatToString(i);
      assert s == body && IsDigit(s[0]);
    }
  }

  // ---------------------------------------------------------------------------
  // Quoting: fmt's %q (strconv.Quote) on the ASCII range

  /** A character below space, or DEL: `%q` never writes one as it is. */
  predicate IsAsciiControl(ch: char)
  {
    ch as int < 0x20 || ch as int == 0x7f
  }

  /** The lower-case hexadecimal digit of `d`. */
  function HexDigit(d: nat): char
    requires d < 16
  {
    if d < 10 then (0x30 + d) as char else (0x61 + d - 10) as char
  }

  /** The value of a lower-case hexadecimal digit. */
  function HexValue(ch: char): Option<nat>
  {
    if '0' <= ch <= '9' then Some(ch as int - 0x30)
    else if 'a' <= ch <= 'f' then Some(ch as int - 0x61 + 10)
    else None
  }

  /** How `%q` writes one character: quote and backslash escaped, the seven
      control characters C names as `\a \b \f \n \r \t \v`, every other control
      character and DEL as `\x` and two lower-case hexadecimal digits, and
      every other character as it is. */
  function EscapeChar(ch: char): string
  {
    var c := ch as int;
    if ch == '"' then "\\\""
    else if ch == '\\' then "\\\\"
    else if c == 0x07 then "\\a"
    else if c == 0x08 then "\\b"
    else if c == 0x0c then "\\f"
    else if ch == '\n' then "\\n"
    else if ch == '\r' then "\\r"
    else if ch == '\t' then "\\t"
    else if c == 0x0b then "\\v"
    else if IsAsciiControl(ch) then "\\x" + [HexDigit(c / 16), HexDigit(c % 16)]
    else [ch]
  }

  function Escape(s: string): string
    decreases |s|
  {
    if s == [] then "" else EscapeChar(s[0]) + Escape(s[1..])
  }

  /** `%q` of a string: the string between double quotes, each character
      written as `EscapeChar` says. */
  function Quote(s: string): (r: string)
    ensures |r| >= 2 && r[0] == '"' && r[|r| - 1] == '"'
  {
    "\"" + Escape(s) + "\""
  }

  /** The character a one-letter escape stands for. */
  function UnescapeChar(ch: char): Option<char>
  {
    if ch == '"' then Some('"')
    else if ch == '\\' then Some('\\')
    else if ch == 'a' then Some(0x07 as char)
    else if ch == 'b' then Some(0x08 as char)
    else if ch == 'f' then Some(0x0c as char)
    else if ch == 'n' then Some('\n')
    else if ch == 'r' then Some('\r')
    else if ch == 't' then Some('\t')
    else if ch == 'v' then Some(0x0b as char)
    else None
  }

  function Unescape(s: string): Option<string>
    decreases |s|
  {
    if s == [] then Some("")
    else if s[0] != '\\' then
      match Unescape(s[1..])
      case None => None
      case Some(t) => Some([s[0]] + t)
    else if |s| < 2 then None
    else if s[1] == 'x' then
      if |s| < 4 then None
      else match (HexValue(s[2]), HexValue(s[3]), Unescape(s[4..]))
        case (Some(h), Some(l), Some(t)) => if 16 * h + l < 0x80 then Some([(16 * h + l) as char] + t) else None
        case _ => None
    else match (UnescapeChar(s[1]), Unescape(s[2..]))
      case (Some(c), Some(t)) => Some([c] + t)
      case _ => None
  }

  /** Reads a quoted string back. */
  function Unquote(q: string): Option<string>
  {
    if |q| >= 2 && q[0] == '"' && q[|q| - 1] == '"' then Unescape(q[1..|q| - 1]) else None
  }

  /** A hexadecimal digit reads back as its value. */
  lemma HexValueDigit(d: nat)
    requires d < 16
    ensures HexValue(HexDigit(d)) == Some(d)
  {
  }

  /** Unescaping an escaped character followed by `t` gives the character in
      front of the unescaped `t`. */
  lemma UnescapeCons(ch: char, t: string)
    ensures Unescape(EscapeChar(ch) + t) == match Unescape(t) case None => None case Some(u) => Some([ch] + u)
  {
    var e := EscapeChar(ch) + t;
    var c := ch as int;
    if |EscapeChar(ch)| == 1 {
      assert e[0] == ch && e[1..] == t;
    } else if |EscapeChar(ch)| == 2 {
      assert e[0] == '\\' && e[1] != 'x' && e[2..] == t;
    } else {
      assert e[0] == '\\' && e[1] == 'x' && e[4..] == t;
      HexValueDigit(c / 16);
      HexValueDigit(c % 16);
      assert e[2] == HexDigit(c / 16) && e[3] == HexDigit(c % 16);
      assert (16 * (c / 16) + c % 16) as char == ch;
    }
  }

  lemma {:induction false} UnescapeEscape(s: string)
    ensures Unescape(Escape(s)) == Some(s)
    decreases |s|
  {
    if s != [] {
      UnescapeEscape(s[1..]);
      UnescapeCons(s[0], Escape(s[1..]));
      assert s == [s[0]] + s[1..];
    }
  }

  /** Quoting loses nothing. */
  lemma QuoteRoundTrip(s: string)
    ensures Unquote(Quote(s)) == Some(s)
  {
    var q := Quote(s);
    assert q[1..|q| - 1] == Escape(s);
    UnescapeEscape(s);
  }

  /** `%q` leaves no control character or DEL in its output: each is escaped. */
  lemma {:induction false} EscapeHasNoControl(s: string)
    ensures forall i :: 0 <= i < |Escape(s)| ==> !IsAsciiControl(Escape(s)[i])
    decreases |s|
  {
    if s != [] {
      EscapeHasNoControl(s[1..]);
      var e := EscapeChar(s[0]);
      assert forall i :: 0 <= i < |e| ==> !IsAsciiControl(e[i]);
      assert Escape(s) == e + Escape(s[1..]);
    }
  }

  /** `%q` writes a vertical tab as `\v`, SOH as `\x01` and DEL as `\x7f`. */
  lemma QuoteControl()
    ensures Quote([0x0b as char]) == "\"\\v\""
    ensures Quote([0x01 as char]) == "\"\\x01\""
    ensures Quote([0x7f as char]) == "\"\\x7f\""
  {
    QuoteOne(0x0b as char);
    QuoteOne(0x01 as char);
    QuoteOne(0x7f as char);
    assert EscapeChar(0x01 as char) == "\\x" + [HexDigit(0), HexDigit(1)];
    assert EscapeChar(0x7f as char) == "\\x" + [HexDigit(7), HexDigit(15)];
  }

  lemma QuoteOne(ch: char)
    ensures Quote([ch]) == "\"" + EscapeChar(ch) + "\""
  {
    assert Escape([ch]) == EscapeChar(ch) + Escape([]);
  }
}
