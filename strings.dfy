/** String helpers shared by the TypeScript and Python parts of the model. */
module Strings {
  import opened Base

  /** `parts.join(sep)` in TypeScript, `sep.join(parts)` in Python. */
  function Join(parts: seq<string>, sep: string): string
  {
    if |parts| == 0 then "" else if |parts| == 1 then parts[0] else parts[0] + sep + Join(parts[1..], sep)
  }

  function Digit(d: nat): char
    requires d < 10
  {
    "0123456789"[d]
  }

  /** Decimal rendering of a natural number, as `str(n)` and `String(n)` produce it. */
  function NatToString(n: nat): (r: string)
    ensures |r| >= 1 && r[|r| - 1] == Digit(n % 10)
    ensures forall i :: 0 <= i < |r| ==> r[i] in "0123456789"
  {
    if n < 10 then [Digit(n)] else NatToString(n / 10) + [Digit(n % 10)]
  }

  function Abs(n: int): nat { if n < 0 then -n else n }

  /** Decimal rendering of an integer, with a leading `-` for negative values. */
  function IntToString(n: int): (r: string)
    ensures |r| >= 1 && r[|r| - 1] == Digit(Abs(n) % 10)
  {
    if n < 0 then "-" + NatToString(-n) else NatToString(n)
  }

  /** `s.split(c)` with a one-character separator: always at least one part. */
  function Split(s: string, c: char): (r: seq<string>)
    ensures |r| >= 1
  {
    if |s| == 0 then [""]
    else if s[0] == c then [""] + Split(s[1..], c)
    else var rest := Split(s[1..], c); [[s[0]] + rest[0]] + rest[1..]
  }

  lemma {:induction false} SplitWithout(s: string, c: char)
    requires c !in s
    ensures Split(s, c) == [s]
  {
    if |s| > 0 {
      assert s[0] in s;
      SplitWithout(s[1..], c);
      assert [s[0]] + s[1..] == s;
    }
  }

  lemma {:induction false} SplitAfter(a: string, c: char, b: string)
    requires c !in a
    ensures Split(a + [c] + b, c) == [a] + Split(b, c)
  {
    if |a| == 0 {
      assert a + [c] + b == [c] + b;
      assert ([c] + b)[1..] == b;
    } else {
      assert (a + [c] + b)[1..] == a[1..] + [c] + b;
      SplitAfter(a[1..], c, b);
      assert [a[0]] + a[1..] == a;
    }
  }

  /** Splitting a join on a separator that occurs in no part gives the parts back. */
  lemma {:induction false} SplitJoin(parts: seq<string>, c: char)
    requires |parts| >= 1
    requires forall i :: 0 <= i < |parts| ==> c !in parts[i]
    ensures Split(Join(parts, [c]), c) == parts
  {
    if |parts| == 1 {
      SplitWithout(parts[0], c);
    } else {
      SplitJoin(parts[1..], c);
      SplitAfter(parts[0], c, Join(parts[1..], [c]));
      assert parts == [parts[0]] + parts[1..];
    }
  }

  /** No part of a split holds the separator. */
  lemma {:induction false} SplitParts(s: string, c: char)
    ensures forall i :: 0 <= i < |Split(s, c)| ==> c !in Split(s, c)[i]
  {
    if |s| > 0 {
      SplitParts(s[1..], c);
    }
  }

  /** Joining the parts of a split with the separator gives the string back. */
  lemma {:induction false} JoinSplit(s: string, c: char)
    ensures Join(Split(s, c), [c]) == s
  {
    if |s| > 0 {
      var rest := Split(s[1..], c);
      JoinSplit(s[1..], c);
      if s[0] == c {
        assert s == [c] + s[1..];
      } else {
        var r := Split(s, c);
        assert r[1..] == rest[1..];
        if |rest| == 1 {
          assert s == [s[0]] + s[1..];
        } else {
          assert Join(rest, [c]) == rest[0] + [c] + Join(rest[1..], [c]);
          assert s == [s[0]] + s[1..];
        }
      }
    }
  }

  /** Code-point lexicographic order, the order of Python's `sorted` on strings. */
  predicate StrLe(a: string, b: string)
  {
    if |a| == 0 then true
    else if |b| == 0 then false
    else if a[0] != b[0] then a[0] < b[0]
    else StrLe(a[1..], b[1..])
  }

  lemma {:induction false} StrLeTotal(a: string, b: string)
    ensures StrLe(a, b) || StrLe(b, a)
  {
    if |a| > 0 && |b| > 0 && a[0] == b[0] { StrLeTotal(a[1..], b[1..]); }
  }

  predicate SortedStrings(xs: seq<string>)
  {
    forall i :: 0 <= i < |xs| - 1 ==> StrLe(xs[i], xs[i + 1])
  }

  function Insert(x: string, xs: seq<string>): seq<string>
  {
    if xs == [] then [x] else if StrLe(x, xs[0]) then [x] + xs else [xs[0]] + Insert(x, xs[1..])
  }

  lemma {:induction false} InsertShape(x: string, xs: seq<string>)
    ensures multiset(Insert(x, xs)) == multiset(xs) + multiset{x} && |Insert(x, xs)| == |xs| + 1
    ensures xs != [] ==> Insert(x, xs)[0] == x || Insert(x, xs)[0] == xs[0]
  {
    if xs != [] && !StrLe(x, xs[0]) {
      var t := Insert(x, xs[1..]);
      InsertShape(x, xs[1..]);
      assert Insert(x, xs) == [xs[0]] + t;
      assert multiset(xs) == multiset{xs[0]} + multiset(xs[1..]) by { assert xs == [xs[0]] + xs[1..]; }
    }
  }

  lemma {:induction false} InsertSorted(x: string, xs: seq<string>)
    requires SortedStrings(xs)
    ensures SortedStrings(Insert(x, xs))
  {
    if xs != [] && !StrLe(x, xs[0]) {
      var r := Insert(x, xs[1..]);
      InsertSorted(x, xs[1..]);
      InsertShape(x, xs[1..]);
      StrLeTotal(x, xs[0]);
      var q := [xs[0]] + r;
      assert Insert(x, xs) == q;
      assert StrLe(q[0], q[1]);
      forall i | 1 <= i < |q| - 1 ensures StrLe(q[i], q[i + 1]) {
        assert q[i] == r[i - 1] && q[i + 1] == r[i];
      }
    }
  }

  /** Python's `sorted` on a sequence of strings. */
  function SortStrings(xs: seq<string>): (r: seq<string>)
    ensures SortedStrings(r) && multiset(r) == multiset(xs) && |r| == |xs|
  {
    if xs == [] then []
    else
      var rest := SortStrings(xs[1..]);
      InsertFirst(xs, rest);
      Insert(xs[0], rest)
  }

  /** Inserting the first string into the sorted rest sorts the whole sequence. */
  lemma InsertFirst(xs: seq<string>, rest: seq<string>)
    requires xs != [] && SortedStrings(rest) && multiset(rest) == multiset(xs[1..]) && |rest| == |xs| - 1
    ensures SortedStrings(Insert(xs[0], rest)) && multiset(Insert(xs[0], rest)) == multiset(xs) && |Insert(xs[0], rest)| == |xs|
  {
    InsertSorted(xs[0], rest);
    InsertShape(xs[0], rest);
    assert xs == [xs[0]] + xs[1..];
  }

  const HEX_DIGITS := "0123456789abcdef"

  /** The quote `repr` puts around a string: double quotes when it holds a single quote
      and no double quote, single quotes otherwise. */
  function ReprQuote(s: string): char
  {
    if '\'' in s && '"' !in s then '"' else '\''
  }

  /** One character as `repr` writes it between the quotes `q`: the quote itself and the
      backslash get a backslash, tab, newline and carriage return their letter escapes,
      the other ASCII control characters a `\xhh` escape, and the rest stays as it is. */
  function EscapeChar(c: char, q: char): string
  {
    if c == q || c == '\\' then ['\\', c]
    else if c == '\t' then "\\t"
    else if c == '\n' then "\\n"
    else if c == '\r' then "\\r"
    else if c < ' ' || c as int == 0x7f then ['\\', 'x', HEX_DIGITS[c as int / 16], HEX_DIGITS[c as int % 16]]
    else [c]
  }

  function EscapeBody(s: string, q: char): string
  {
    if s == [] then [] else EscapeChar(s[0], q) + EscapeBody(s[1..], q)
  }

  /** `repr` of a Python string. */
  function PyStrRepr(s: string): (r: string)
    ensures |r| >= 2 && r[0] == r[|r| - 1] == ReprQuote(s)
    ensures PyStrUnrepr(r) == Some(s)
  {
    var q := ReprQuote(s);
    var body := EscapeBody(s, q);
    UnescapeBody(s, q);
    assert ([q] + body + [q])[1..|body| + 1] == body;
    [q] + body + [q]
  }

  function HexValue(c: char): (v: nat)
    ensures v < 16
  {
    if '0' <= c <= '9' then c as int - '0' as int
    else if 'a' <= c <= 'f' then c as int - 'a' as int + 10
    else 0
  }

  /** Each hexadecimal digit reads back as its value. */
  lemma HexDigitValue(v: nat)
    requires v < 16
    ensures HEX_DIGITS[v] in HEX_DIGITS && HexValue(HEX_DIGITS[v]) == v
  {
    if v < 10 {
      assert HEX_DIGITS[v] as int == '0' as int + v;
    } else {
      assert HEX_DIGITS[v] as int == 'a' as int + v - 10;
    }
  }

  /** Reading an escaped body back: the escapes `EscapeChar` writes stand for their
      characters, any other backslash sequence is malformed. */
  function Unescape(body: string): Option<string>
    decreases |body|
  {
    if body == [] then Some([])
    else
      var n := if body[0] != '\\' then 1
               else if |body| >= 4 && body[1] == 'x' && body[2] in HEX_DIGITS && body[3] in HEX_DIGITS then 4
               else if |body| >= 2 && body[1] in "tnr\\'\"" then 2
               else 0;
      if n == 0 then None
      else
        var c := if n == 1 then body[0]
                 else if n == 4 then (16 * HexValue(body[2]) + HexValue(body[3])) as char
                 else if body[1] == 't' then '\t' else if body[1] == 'n' then '\n' else if body[1] == 'r' then '\r'
                 else body[1];
        match Unescape(body[n..])
        case None => None
        case Some(rest) => Some([c] + rest)
  }

  /** The string a `repr` text stands for, if it is one. */
  function PyStrUnrepr(r: string): Option<string>
  {
    if |r| >= 2 && r[0] == r[|r| - 1] && r[0] in "'\"" then Unescape(r[1..|r| - 1]) else None
  }

  /** Unescaping undoes one escaped character in front of any text. */
  lemma UnescapeChar(c: char, q: char, rest: string)
    requires q == '\'' || q == '"'
    ensures Unescape(EscapeChar(c, q) + rest) ==
      match Unescape(rest) case None => None case Some(t) => Some([c] + t)
  {
    var e := EscapeChar(c, q);
    var body := e + rest;
    if c == q || c == '\\' {
      UnescapeLetter(c, c, rest);
    } else if c == '\t' {
      UnescapeLetter(c, 't', rest);
    } else if c == '\n' {
      UnescapeLetter(c, 'n', rest);
    } else if c == '\r' {
      UnescapeLetter(c, 'r', rest);
    } else if c < ' ' || c as int == 0x7f {
      UnescapeHex(c, rest);
    } else {
      assert body[0] == c && body[1..] == rest;
    }
  }

  /** A two-character escape reads back as the character it was written for. */
  lemma UnescapeLetter(c: char, letter: char, rest: string)
    requires letter in "tnr\\'\""
    requires c == (if letter == 't' then '\t' else if letter == 'n' then '\n' else if letter == 'r' then '\r' else letter)
    ensures Unescape(['\\', letter] + rest) == match Unescape(rest) case None => None case Some(t) => Some([c] + t)
  {
    var body := ['\\', letter] + rest;
    assert body[0] == '\\' && body[1] == letter && body[2..] == rest;
  }

  /** A `\xhh` escape reads back as the control character it was written for. */
  lemma UnescapeHex(c: char, rest: string)
    requires c < ' ' || c as int == 0x7f
    ensures var e := ['\\', 'x', HEX_DIGITS[c as int / 16], HEX_DIGITS[c as int % 16]];
      Unescape(e + rest) == match Unescape(rest) case None => None case Some(t) => Some([c] + t)
  {
    var hi, lo := c as int / 16, c as int % 16;
    HexDigitValue(hi);
    HexDigitValue(lo);
    var body := ['\\', 'x', HEX_DIGITS[hi], HEX_DIGITS[lo]] + rest;
    assert body[0] == '\\' && body[1] == 'x' && body[2] == HEX_DIGITS[hi] && body[3] == HEX_DIGITS[lo];
    assert body[4..] == rest;
    assert (16 * HexValue(body[2]) + HexValue(body[3])) as char == c;
  }

  /** Unescaping an escaped body gives back the string. */
  lemma {:induction false} UnescapeBody(s: string, q: char)
    requires q == '\'' || q == '"'
    ensures Unescape(EscapeBody(s, q)) == Some(s)
  {
    if s != [] {
      UnescapeBody(s[1..], q);
      UnescapeChar(s[0], q, EscapeBody(s[1..], q));
      assert [s[0]] + s[1..] == s;
    }
  }

  /** `repr` (and `str`) of a Python list of strings. */
  function PyListRepr(xs: seq<string>): string
  {
    "[" + Join(Map(xs, PyStrRepr), ", ") + "]"
  }
}
