/** Strings that are printed and parsed back: cutting, joining, decimal and hexadecimal numbers. */
module Text {
  import opened Names

  /** The parts before and after the first c; without one, everything comes before. */
  function Cut(s: string, c: char): (string, string) {
    if s == "" then ("", "")
    else if s[0] == c then ("", s[1..])
    else var (a, b) := Cut(s[1..], c); ([s[0]] + a, b)
  }

  lemma {:induction false} CutAt(a: string, b: string, c: char)
    requires c !in a
    ensures Cut(a + [c] + b, c) == (a, b)
  {
    if a != "" {
      assert (a + [c] + b)[1..] == a[1..] + [c] + b;
      CutAt(a[1..], b, c);
      assert [a[0]] + a[1..] == a;
    } else {
      assert (a + [c] + b)[1..] == b;
    }
  }

  /** The parts before and after the last c; without one, everything comes after. */
  function CutLast(s: string, c: char): (string, string) {
    if s == "" then ("", "")
    else if s[|s| - 1] == c then (s[..|s| - 1], "")
    else var (a, b) := CutLast(s[..|s| - 1], c); (a, b + [s[|s| - 1]])
  }

  lemma {:induction false} CutLastAt(a: string, b: string, c: char)
    requires c !in b
    ensures CutLast(a + [c] + b, c) == (a, b)
  {
    var s := a + [c] + b;
    if b != "" {
      assert s[..|s| - 1] == a + [c] + b[..|b| - 1];
      CutLastAt(a, b[..|b| - 1], c);
      assert b[..|b| - 1] + [b[|b| - 1]] == b;
    } else {
      assert s[..|s| - 1] == a;
    }
  }

  function Join(parts: seq<string>, c: char): string {
    if parts == [] then "" else if |parts| == 1 then parts[0] else parts[0] + [c] + Join(parts[1..], c)
  }

  lemma {:induction false} CutShortens(s: string, c: char)
    ensures s != "" ==> |Cut(s, c).1| < |s|
  {
    if s != "" && s[0] != c {
      CutShortens(s[1..], c);
    }
  }

  function Split(s: string, c: char): seq<string>
    decreases |s|
  {
    if c !in s then [s] else
    CutShortens(s, c);
    [Cut(s, c).0] + Split(Cut(s, c).1, c)
  }

  lemma {:induction false} SplitJoin(parts: seq<string>, c: char)
    requires parts != [] && forall i :: 0 <= i < |parts| ==> c !in parts[i]
    ensures Split(Join(parts, c), c) == parts
  {
    if |parts| > 1 {
      var rest := Join(parts[1..], c);
      CutAt(parts[0], rest, c);
      assert Join(parts, c)[|parts[0]|] == c;
      SplitJoin(parts[1..], c);
      assert [parts[0]] + parts[1..] == parts;
    }
  }

  /** Every part with the separator after it. */
  function Trail(parts: seq<string>, c: char): string {
    if parts == [] then "" else Trail(parts[..|parts| - 1], c) + parts[|parts| - 1] + [c]
  }

  lemma {:induction false} TrailJoin(parts: seq<string>, last: string, c: char)
    ensures Trail(parts, c) + last == Join(parts + [last], c)
  {
    if parts != [] {
      var init, part := parts[..|parts| - 1], parts[|parts| - 1];
      TrailJoin(init, part + [c] + last, c);
      JoinLast(init, part, last, c);
      assert init + [part] == parts;
      assert Trail(parts, c) + last == Trail(init, c) + (part + [c] + last);
    }
  }

  lemma {:induction false} JoinLast(init: seq<string>, part: string, last: string, c: char)
    ensures Join(init + [part + [c] + last], c) == Join(init + [part] + [last], c)
  {
    if init == [] {
      assert ([part] + [last])[1..] == [last];
    } else {
      JoinLast(init[1..], part, last, c);
      assert (init + [part + [c] + last])[1..] == init[1..] + [part + [c] + last];
      assert (init + [part] + [last])[1..] == init[1..] + [part] + [last];
    }
  }

  function Digit(d: nat): char
    requires d < 10
  {
    ('0' as int + d) as char
  }

  function DigitOf(c: char): Option<nat> {
    if '0' <= c <= '9' then Some(c as int - '0' as int) else None
  }

  function Decimal(n: nat): string {
    if n < 10 then [Digit(n)] else Decimal(n / 10) + [Digit(n % 10)]
  }

  /** Reads a nonempty string of digits. */
  function ParseDecimal(s: string): Option<nat> {
    if s == "" then None else
    match DigitOf(s[|s| - 1])
    case None => None
    case Some(d) =>
      if |s| == 1 then Some(d) else
      match ParseDecimal(s[..|s| - 1])
      case None => None
      case Some(n) => Some(10 * n + d)
  }

  predicate AllDigits(s: string) {
    forall i :: 0 <= i < |s| ==> '0' <= s[i] <= '9'
  }

  lemma {:induction false} DecimalParses(n: nat)
    ensures ParseDecimal(Decimal(n)) == Some(n) && AllDigits(Decimal(n)) && Decimal(n) != ""
  {
    if n >= 10 {
      DecimalParses(n / 10);
      assert Decimal(n)[..|Decimal(n)| - 1] == Decimal(n / 10);
    }
  }

  function HexDigit(d: nat): char
    requires d < 16
  {
    if d < 10 then Digit(d) else ('A' as int + d - 10) as char
  }

  /** Upper and lower case are read alike. */
  function HexOf(c: char): Option<nat> {
    if '0' <= c <= '9' then Some(c as int - '0' as int)
    else if 'A' <= c <= 'F' then Some(c as int - 'A' as int + 10)
    else if 'a' <= c <= 'f' then Some(c as int - 'a' as int + 10)
    else None
  }

  function ParseHex(s: string): Option<nat> {
    if s == "" then None else
    match HexOf(s[|s| - 1])
    case None => None
    case Some(d) =>
      if |s| == 1 then Some(d) else
      match ParseHex(s[..|s| - 1])
      case None => None
      case Some(n) => Some(16 * n + d)
  }

  function Hex2(b: nat): string
    requires b < 256
  {
    [HexDigit(b / 16), HexDigit(b % 16)]
  }

  lemma HexDigitParses(d: nat)
    requires d < 16
    ensures HexOf(HexDigit(d)) == Some(d) && HexDigit(d) != ':'
  {}

  lemma ParseHexSnoc(s: string, c: char)
    requires s != "" && ParseHex(s).Some? && HexOf(c).Some?
    ensures ParseHex(s + [c]) == Some(16 * ParseHex(s).value + HexOf(c).value)
  {
    assert (s + [c])[..|s|] == s;
  }

  /** Two bytes printed one after the other read as one number of sixteen bits. */
  lemma Hex4Parses(b: nat, c: nat)
    requires b < 256 && c < 256
    ensures ParseHex(Hex2(b) + Hex2(c)) == Some(256 * b + c) && ':' !in Hex2(b) + Hex2(c)
  {
    HexDigitParses(b / 16);
    HexDigitParses(b % 16);
    HexDigitParses(c / 16);
    HexDigitParses(c % 16);
    var d1, d2, d3, d4 := HexDigit(b / 16), HexDigit(b % 16), HexDigit(c / 16), HexDigit(c % 16);
    assert Hex2(b) + Hex2(c) == [d1] + [d2] + [d3] + [d4];
    ParseHexSnoc([d1], d2);
    ParseHexSnoc([d1] + [d2], d3);
    ParseHexSnoc([d1] + [d2] + [d3], d4);
  }
}
