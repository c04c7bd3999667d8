/** The pieces of Go's `strings` and `strconv` packages that the agent relies on. */
module Strings {

  datatype Option<+T> = None | Some(value: T) {

    function GetOr(default: T): T
    {
      match this case Some(v) => v case None => default
    }
  }

  const NL: char := '\n'
  const CR: char := '\r'

  /** Put `c` in front of the first part. */
  function PushFront(c: char, parts: seq<string>): seq<string>
    requires |parts| >= 1
  {
    [[c] + parts[0]] + parts[1..]
  }

  /** Put `c` behind the last part. */
  function PushBack(parts: seq<string>, c: char): seq<string>
    requires |parts| >= 1
  {
    parts[|parts| - 1 := parts[|parts| - 1] + [c]]
  }

  /** strings.Split(s, "\n"). */
  function Split(s: string): (parts: seq<string>)
    ensures |parts| >= 1
  {
    if s == "" then [""]
    else if s[0] == NL then [""] + Split(s[1..])
    else PushFront(s[0], Split(s[1..]))
  }

  /** strings.Join(parts, "\n"). */
  function Join(parts: seq<string>): string
  {
    if |parts| == 0 then ""
    else if |parts| == 1 then parts[0]
    else parts[0] + ([NL] + Join(parts[1..]))
  }

  ghost predicate NewlineFree(parts: seq<string>)
  {
    forall i :: 0 <= i < |parts| ==> NL !in parts[i]
  }

  lemma ConcatAssoc(a: string, b: string, c: string)
    ensures (a + b) + c == a + (b + c)
  {
  }

  lemma JoinPushFront(c: char, parts: seq<string>)
    requires |parts| >= 1
    ensures Join(PushFront(c, parts)) == [c] + Join(parts)
  {
    var rest := parts[1..];
    assert PushFront(c, parts)[1..] == rest;
    ConcatAssoc([c], parts[0], [NL] + Join(rest));
  }

  /** Splitting gives newline-free parts, and joining them gives the text back. */
  lemma {:induction false} JoinOfSplit(s: string)
    ensures NewlineFree(Split(s))
    ensures Join(Split(s)) == s
  {
    if s != "" {
      JoinOfSplit(s[1..]);
      var rest := Split(s[1..]);
      if s[0] == NL {
        assert Split(s)[1..] == rest;
      } else {
        JoinPushFront(s[0], rest);
      }
    }
  }

  lemma PushFrontConcat(c: char, a: seq<string>, b: seq<string>)
    requires |a| >= 1
    ensures PushFront(c, a + b) == PushFront(c, a) + b
  {
  }

  lemma PushesCommute(c: char, parts: seq<string>, d: char)
    requires |parts| >= 1
    ensures PushFront(c, PushBack(parts, d)) == PushBack(PushFront(c, parts), d)
  {
    assert [c] + (parts[0] + [d]) == ([c] + parts[0]) + [d];
  }

  /** A newline separates the parts of what precedes it from the parts of what follows it. */
  lemma {:induction false} SplitAtNewline(a: string, b: string)
    ensures Split(a + [NL] + b) == Split(a) + Split(b)
  {
    var t := a + [NL] + b;
    if a == "" {
      assert t[1..] == b;
    } else {
      assert t[1..] == a[1..] + [NL] + b;
      SplitAtNewline(a[1..], b);
      if a[0] != NL {
        PushFrontConcat(a[0], Split(a[1..]), Split(b));
      }
    }
  }

  lemma {:induction false} SplitOfLine(s: string)
    requires NL !in s
    ensures Split(s) == [s]
  {
    if s != "" {
      SplitOfLine(s[1..]);
      assert s == [s[0]] + s[1..];
    }
  }

  /** Appending a character that is not a newline extends the last part. */
  lemma {:induction false} SplitAppend(s: string, c: char)
    requires c != NL
    ensures Split(s + [c]) == PushBack(Split(s), c)
  {
    var t := s + [c];
    if s == "" {
      assert t[1..] == "" && [c] + "" == "" + [c];
    } else {
      assert t[1..] == s[1..] + [c];
      SplitAppend(s[1..], c);
      PushesCommute(s[0], Split(s[1..]), c);
    }
  }

  /** The index of the first colon, or the length of the line. */
  function ColonIndex(line: string): (i: nat)
    ensures i <= |line| && ':' !in line[..i] && (i < |line| ==> line[i] == ':')
  {
    if line == "" || line[0] == ':' then 0 else 1 + ColonIndex(line[1..])
  }

  lemma {:induction false} ColonAt(field: string, rest: string)
    requires ':' !in field && rest != "" && rest[0] == ':'
    ensures ColonIndex(field + rest) == |field|
  {
    if field == "" {
      assert field + rest == rest;
    } else {
      assert (field + rest)[1..] == field[1..] + rest;
      ColonAt(field[1..], rest);
    }
  }

  /** unicode.IsSpace. */
  predicate IsSpace(c: char)
  {
    || '\t' <= c <= '\r' || c == ' ' || c == '\U{85}' || c == '\U{A0}' || c == '\U{1680}'
    || '\U{2000}' <= c <= '\U{200A}' || c == '\U{2028}' || c == '\U{2029}' || c == '\U{202F}'
    || c == '\U{205F}' || c == '\U{3000}'
  }

  /** The code points of white space in Unicode. */
  const SPACES: set<int> :=
    {9, 10, 11, 12, 13, 32, 133, 160, 5760, 8192, 8193, 8194, 8195, 8196, 8197, 8198, 8199, 8200, 8201, 8202, 8232,
     8233, 8239, 8287, 12288}

  lemma SpacesAre(c: char)
    ensures IsSpace(c) <==> c as int in SPACES
  {
  }

  function TrimLeft(s: string): (r: string)
  {
    if s != "" && IsSpace(s[0]) then TrimLeft(s[1..]) else s
  }

  function TrimRight(s: string): (r: string)
  {
    if s != "" && IsSpace(s[|s| - 1]) then TrimRight(s[..|s| - 1]) else s
  }

  /** strings.TrimSpace. */
  function TrimSpace(s: string): string
  {
    TrimRight(TrimLeft(s))
  }

  lemma {:induction false} TrimLeftAppend(s: string, c: char)
    requires IsSpace(c)
    ensures TrimSpace(s + [c]) == TrimSpace(s)
  {
    if s == "" {
      assert s + [c] == [c];
      assert [c][1..] == "";
    } else if IsSpace(s[0]) {
      assert (s + [c])[1..] == s[1..] + [c];
      TrimLeftAppend(s[1..], c);
    } else {
      assert (s + [c])[..|s|] == s;
    }
  }

  /** What TrimSpace leaves is a fixed point of it and contains no new characters. */
  lemma {:induction false} TrimRightFacts(s: string)
    ensures TrimRight(TrimRight(s)) == TrimRight(s)
    ensures TrimRight(s) <= s
    ensures TrimRight(s) != "" ==> !IsSpace(TrimRight(s)[|TrimRight(s)| - 1])
  {
    if s != "" && IsSpace(s[|s| - 1]) {
      TrimRightFacts(s[..|s| - 1]);
    }
  }

  lemma {:induction false} TrimLeftFacts(s: string)
    ensures TrimLeft(s) != "" ==> !IsSpace(TrimLeft(s)[0])
    ensures forall c :: c in TrimLeft(s) ==> c in s
  {
    if s != "" && IsSpace(s[0]) {
      TrimLeftFacts(s[1..]);
    }
  }

  lemma TrimFacts(s: string)
    ensures TrimSpace(TrimSpace(s)) == TrimSpace(s)
    ensures forall c :: c in TrimSpace(s) ==> c in s
  {
    var l := TrimLeft(s);
    var t := TrimSpace(s);
    TrimLeftFacts(s);
    TrimRightFacts(l);
    if t != "" {
      assert t[0] == l[0];
    }
  }

  ghost predicate AllSpace(s: string)
  {
    forall i :: 0 <= i < |s| ==> IsSpace(s[i])
  }

  lemma {:induction false} TrimLeftCuts(s: string) returns (spaces: string)
    ensures s == spaces + TrimLeft(s) && AllSpace(spaces)
  {
    spaces := "";
    if s != "" && IsSpace(s[0]) {
      var rest := TrimLeftCuts(s[1..]);
      spaces := [s[0]] + rest;
      assert s == [s[0]] + s[1..];
    }
  }

  lemma {:induction false} TrimRightCuts(s: string) returns (spaces: string)
    ensures s == TrimRight(s) + spaces && AllSpace(spaces)
  {
    spaces := "";
    if s != "" && IsSpace(s[|s| - 1]) {
      var init := TrimRightCuts(s[..|s| - 1]);
      spaces := init + [s[|s| - 1]];
      assert s == s[..|s| - 1] + [s[|s| - 1]];
    }
  }

  /** Trimming cuts off white space only, and all of it. */
  lemma TrimCutsSpaces(s: string) returns (left: string, right: string)
    ensures s == left + TrimSpace(s) + right && AllSpace(left) && AllSpace(right)
    ensures var t := TrimSpace(s); t != "" ==> !IsSpace(t[0]) && !IsSpace(t[|t| - 1])
  {
    left := TrimLeftCuts(s);
    right := TrimRightCuts(TrimLeft(s));
    TrimLeftFacts(s);
    TrimRightFacts(TrimLeft(s));
  }

  lemma NothingToTrim(s: string)
    requires s != "" && !IsSpace(s[0]) && !IsSpace(s[|s| - 1])
    ensures TrimSpace(s) == s
  {
  }

  // ---------- numbers ----------

  /** The decimal digits of a number. */
  function Digits(n: nat): (r: string)
    ensures |r| > 0
    ensures forall i :: 0 <= i < |r| ==> '0' <= r[i] <= '9'
  {
    var d := ['0' + (n % 10) as char];
    if n < 10 then d else Digits(n / 10) + d
  }

  /** strconv.Itoa. */
  function Itoa(n: int): string
  {
    if n < 0 then "-" + Digits(-n) else Digits(n)
  }

  /** A minus sign is there exactly for negative numbers, before the digits of the distance from zero. */
  lemma ItoaIsSigned(n: int)
    ensures Itoa(n) != "" && (Itoa(n)[0] == '-' <==> n < 0)
    ensures Itoa(n)[if n < 0 then 1 else 0..] == Digits(if n < 0 then -n else n)
  {
    if n < 0 {
      assert ("-" + Digits(-n))[1..] == Digits(-n);
    } else {
      assert Digits(n)[0..] == Digits(n);
    }
  }

  function PowerOf10(k: nat): (p: nat)
    ensures p > 0
  {
    if k == 0 then 1 else 10 * PowerOf10(k - 1)
  }

  lemma QuotientIs(x: nat, d: nat, q: nat, r: nat)
    requires x == d * q + r && r < d
    ensures x / d == q
  {
    var diff := x / d - q;
    assert d * diff == r - x % d;
  }

  /** Dropping one digit and then `k` more drops `k + 1`. */
  lemma DivideTwice(n: nat, p: nat)
    requires p > 0
    ensures n / 10 / p == n / (10 * p)
  {
    var q := n / 10;
    var a, b := q / p, q % p;
    assert n == 10 * (p * a + b) + n % 10 == (10 * p) * a + (10 * b + n % 10);
    QuotientIs(n, 10 * p, a, 10 * b + n % 10);
  }

  /** The digits are those of the place values: `k` places from the end stands n / 10^k modulo 10. */
  lemma {:induction false} DigitAtPlace(n: nat, k: nat)
    requires k < |Digits(n)|
    ensures (Digits(n)[|Digits(n)| - 1 - k] - '0') as int == n / PowerOf10(k) % 10
  {
    if k > 0 {
      assert Digits(n)[|Digits(n)| - 1 - k] == Digits(n / 10)[|Digits(n / 10)| - 1 - (k - 1)];
      DigitAtPlace(n / 10, k - 1);
      DivideTwice(n, PowerOf10(k - 1));
    }
  }

  /** And there are as many as the number needs: no leading zero, except for zero itself. */
  lemma {:induction false} DigitsNeeded(n: nat)
    ensures n < PowerOf10(|Digits(n)|)
    ensures if n == 0 then Digits(n) == "0" else PowerOf10(|Digits(n)| - 1) <= n
  {
    if n >= 10 {
      DigitsNeeded(n / 10);
      assert PowerOf10(|Digits(n)|) == 10 * PowerOf10(|Digits(n / 10)|);
      assert PowerOf10(|Digits(n)| - 1) == 10 * PowerOf10(|Digits(n / 10)| - 1);
    } else {
      assert PowerOf10(1) == 10 * PowerOf10(0);
    }
  }
}
