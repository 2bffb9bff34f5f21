/** The string functions of the standard library that the address and URI code is made of. */
module Text {
  import opened Wrappers

  /** `rsplit_once`: the parts before and after the last `c`. */
  function RSplitOnce(s: string, c: char): Option<(string, string)> {
    if s == "" then None
    else if s[|s| - 1] == c then Some((s[..|s| - 1], ""))
    else
      match RSplitOnce(s[..|s| - 1], c)
      case None => None
      case Some((a, b)) => Some((a, b + [s[|s| - 1]]))
  }

  /** `split_once`: the parts before and after the first `c`. Texts are cut at characters, byte strings at bytes. */
  function SplitOnce<T(==)>(s: seq<T>, c: T): Option<(seq<T>, seq<T>)> {
    if s == [] then None
    else if s[0] == c then Some(([], s[1..]))
    else
      match SplitOnce(s[1..], c)
      case None => None
      case Some((a, b)) => Some(([s[0]] + a, b))
  }

  /** `split`: the parts between the occurrences of `c`. */
  function Split(s: string, c: char): (parts: seq<string>)
    ensures |parts| >= 1
    decreases |s|
  {
    var cut := SplitOnce(s, c);
    if cut.None? then [s]
    else
      SplitShorter(s, c);
      [cut.value.0] + Split(cut.value.1, c)
  }

  lemma {:induction false} SplitShorter(s: string, c: char)
    ensures SplitOnce(s, c).Some? ==> |SplitOnce(s, c).value.1| < |s|
  {
    if s != "" && s[0] != c {
      SplitShorter(s[1..], c);
    }
  }

  /** The split is at the last `c`, and there is one exactly when `c` occurs. */
  lemma {:induction false} RSplitOnceParts(s: string, c: char)
    ensures RSplitOnce(s, c).None? <==> c !in s
    ensures RSplitOnce(s, c).Some? ==>
              var (a, b) := RSplitOnce(s, c).value; s == a + [c] + b && c !in b
  {
    if s != "" {
      var n := |s| - 1;
      assert s == s[..n] + [s[n]];
      if s[n] != c {
        RSplitOnceParts(s[..n], c);
        if RSplitOnce(s[..n], c).Some? {
          var (a, b) := RSplitOnce(s[..n], c).value;
          assert s == a + [c] + (b + [s[n]]);
        }
      }
    }
  }

  lemma {:induction false} RSplitOnceAt(a: string, c: char, b: string)
    requires c !in b
    ensures RSplitOnce(a + [c] + b, c) == Some((a, b))
  {
    var s := a + [c] + b;
    if b == "" {
      assert s[..|s| - 1] == a;
    } else {
      var front := b[..|b| - 1];
      assert s[..|s| - 1] == a + [c] + front;
      RSplitOnceAt(a, c, front);
      assert front + [b[|b| - 1]] == b;
    }
  }

  lemma {:induction false} SplitOnceParts<T>(s: seq<T>, c: T)
    ensures SplitOnce(s, c).None? <==> c !in s
    ensures SplitOnce(s, c).Some? ==>
              var (a, b) := SplitOnce(s, c).value; s == a + [c] + b && c !in a
  {
    if s != [] {
      assert s == [s[0]] + s[1..];
      if s[0] != c {
        SplitOnceParts(s[1..], c);
        if SplitOnce(s[1..], c).Some? {
          var (a, b) := SplitOnce(s[1..], c).value;
          assert s == [s[0]] + a + [c] + b;
        }
      }
    }
  }

  lemma {:induction false} SplitOnceAt<T>(a: seq<T>, c: T, b: seq<T>)
    requires c !in a
    ensures SplitOnce(a + [c] + b, c) == Some((a, b))
  {
    var s := a + [c] + b;
    if a == [] {
      assert s[1..] == b;
    } else {
      assert s[1..] == a[1..] + [c] + b;
      SplitOnceAt(a[1..], c, b);
      assert [a[0]] + a[1..] == a;
    }
  }

  function Join(parts: seq<string>, c: char): string
    requires parts != []
  {
    if |parts| == 1 then parts[0] else parts[0] + [c] + Join(parts[1..], c)
  }

  /** The parts put together again are the text, and none of them holds the character it was cut at. */
  lemma {:induction false} JoinSplit(s: string, c: char)
    ensures Join(Split(s, c), c) == s
    ensures forall i :: 0 <= i < |Split(s, c)| ==> c !in Split(s, c)[i]
    decreases |s|
  {
    SplitOnceParts(s, c);
    var cut := SplitOnce(s, c);
    if cut.Some? {
      SplitShorter(s, c);
      JoinSplit(cut.value.1, c);
      assert Split(s, c)[1..] == Split(cut.value.1, c);
    }
  }

  predicate IsSpace(c: char) {
    c == ' ' || '\t' <= c <= '\r'
  }

  /** Space, tab, line feed, vertical tab, form feed and carriage return. */
  lemma SpaceIff(c: char)
    ensures IsSpace(c) <==> c as int == 32 || 9 <= c as int <= 13
  {
  }

  /** `trim`, for ASCII. */
  function Trim(s: string): string {
    if s != "" && IsSpace(s[0]) then Trim(s[1..])
    else if s != "" && IsSpace(s[|s| - 1]) then Trim(s[..|s| - 1])
    else s
  }

  // ---------------------------------------------------------------------------
  // What the items and the trimmed texts are
  // ---------------------------------------------------------------------------

  /** `part` stands in `s` between two separators, or between one of them and an end. */
  predicate IsItem(s: string, c: char, before: string, part: string, after: string) {
    && s == before + part + after && c !in part
    && (before == "" || before[|before| - 1] == c) && (after == "" || after[0] == c)
  }

  lemma FirstCut(before: string, c: char, part: string, after: string) returns (a: string, b: string)
    requires before != "" && before[|before| - 1] == c
    ensures c !in a && before + part + after == a + [c] + (b + part + after)
    ensures b == "" || b[|b| - 1] == c
  {
    SplitOnceParts(before, c);
    a, b := SplitOnce(before, c).value.0, SplitOnce(before, c).value.1;
    assert b != "" ==> b[|b| - 1] == before[|before| - 1];
  }

  lemma {:induction false} ItemIsSplitOff(s: string, c: char, before: string, part: string, after: string)
    requires IsItem(s, c, before, part, after)
    ensures part in Split(s, c)
    decreases |s|
  {
    SplitOnceParts(s, c);
    if before != "" {
      var a, b := FirstCut(before, c, part, after);
      SplitOnceAt(a, c, b + part + after);
      ItemIsSplitOff(b + part + after, c, b, part, after);
    } else if after != "" {
      assert s == part + [c] + after[1..];
      SplitOnceAt(part, c, after[1..]);
      assert Split(s, c)[0] == part;
    } else {
      assert s == part;
      assert Split(s, c)[0] == part;
    }
  }

  lemma {:induction false} SplitOffIsItem(s: string, c: char, part: string) returns (before: string, after: string)
    requires part in Split(s, c)
    ensures IsItem(s, c, before, part, after)
    decreases |s|
  {
    SplitOnceParts(s, c);
    var cut := SplitOnce(s, c);
    if cut.None? {
      return "", "";
    }
    var (a, b) := cut.value;
    if part == a {
      return "", [c] + b;
    }
    SplitShorter(s, c);
    var front: string;
    front, after := SplitOffIsItem(b, c, part);
    before := a + [c] + front;
    LaterItem(a, c, front, part, after);
  }

  lemma LaterItem(a: string, c: char, front: string, part: string, after: string)
    requires IsItem(front + part + after, c, front, part, after)
    ensures IsItem(a + [c] + (front + part + after), c, a + [c] + front, part, after)
  {
    assert a + [c] + (front + part + after) == a + [c] + front + part + after;
  }

  predicate AllSpaces(s: string) {
    forall i :: 0 <= i < |s| ==> IsSpace(s[i])
  }

  /** Only spaces at the two ends are cut off, and all of them. */
  lemma {:induction false} TrimParts(s: string) returns (left: string, right: string)
    ensures s == left + Trim(s) + right && AllSpaces(left) && AllSpaces(right)
    ensures Trim(s) != "" ==> !IsSpace(Trim(s)[0]) && !IsSpace(Trim(s)[|Trim(s)| - 1])
    decreases |s|
  {
    if s != "" && IsSpace(s[0]) {
      left, right := TrimParts(s[1..]);
      assert s == [s[0]] + left + Trim(s[1..]) + right;
      left := [s[0]] + left;
    } else if s != "" && IsSpace(s[|s| - 1]) {
      left, right := TrimParts(s[..|s| - 1]);
      assert s == left + Trim(s[..|s| - 1]) + (right + [s[|s| - 1]]);
      right := right + [s[|s| - 1]];
    } else {
      left, right := "", "";
    }
  }

  lemma {:induction false} TrimOf(left: string, word: string, right: string)
    requires AllSpaces(left) && AllSpaces(right)
    requires word != "" && !IsSpace(word[0]) && !IsSpace(word[|word| - 1])
    ensures Trim(left + word + right) == word
    decreases |left| + |right|
  {
    var s := left + word + right;
    if left != "" {
      assert s[1..] == left[1..] + word + right;
      TrimOf(left[1..], word, right);
    } else if right != "" {
      assert s[..|s| - 1] == left + word + right[..|right| - 1];
      TrimOf(left, word, right[..|right| - 1]);
    } else {
      assert s == word;
    }
  }

  // ---------------------------------------------------------------------------
  // Numbers
  // ---------------------------------------------------------------------------

  type Port = n: int | 0 <= n < 65536

  predicate IsDigit(c: char) {
    '0' <= c <= '9'
  }

  predicate AllDigits(s: string) {
    forall i :: 0 <= i < |s| ==> IsDigit(s[i])
  }

  /** `to_string` of an unsigned number. */
  function Decimal(n: nat): (s: string)
    ensures s != "" && AllDigits(s)
    decreases n
  {
    var last := ('0' as int + n % 10) as char;
    if n < 10 then [last] else Decimal(n / 10) + [last]
  }

  function Value(s: string): nat
    requires AllDigits(s)
  {
    if s == "" then 0 else 10 * Value(s[..|s| - 1]) + (s[|s| - 1] as int - '0' as int)
  }

  lemma {:induction false} ValueOfDecimal(n: nat)
    ensures Value(Decimal(n)) == n
    decreases n
  {
    if n >= 10 {
      ValueOfDecimal(n / 10);
      var s := Decimal(n);
      assert s[..|s| - 1] == Decimal(n / 10);
    }
  }

  /** `parse::<u16>`: an optional plus sign, then digits, and a value that fits. */
  function ParsePort(s: string): Option<Port> {
    var digits := if s != "" && s[0] == '+' then s[1..] else s;
    if digits == "" || !AllDigits(digits) || Value(digits) >= 65536 then None else Some(Value(digits))
  }

  lemma ParsePrintedPort(p: Port)
    ensures ParsePort(Decimal(p)) == Some(p)
  {
    ValueOfDecimal(p);
    assert IsDigit(Decimal(p)[0]);
  }

  function Zeros(k: nat): string {
    if k == 0 then "" else "0" + Zeros(k - 1)
  }

  lemma {:induction false} ZeroInFront(s: string)
    requires AllDigits(s)
    ensures AllDigits("0" + s) && Value("0" + s) == Value(s)
  {
    var t := "0" + s;
    if s != "" {
      assert t[..|t| - 1] == "0" + s[..|s| - 1];
      ZeroInFront(s[..|s| - 1]);
    }
  }

  lemma {:induction false} ValueOfPadded(k: nat, n: nat)
    ensures AllDigits(Zeros(k) + Decimal(n)) && Value(Zeros(k) + Decimal(n)) == n
  {
    if k == 0 {
      assert Zeros(0) + Decimal(n) == Decimal(n);
      ValueOfDecimal(n);
    } else {
      var shorter := Zeros(k - 1) + Decimal(n);
      ValueOfPadded(k - 1, n);
      ZeroInFront(shorter);
      assert Zeros(k) + Decimal(n) == "0" + shorter;
    }
  }

  lemma {:induction false} ZerosSnoc(k: nat)
    ensures Zeros(k) + "0" == Zeros(k + 1)
  {
    if k > 0 {
      ZerosSnoc(k - 1);
      assert Zeros(k) + "0" == "0" + (Zeros(k - 1) + "0");
    }
  }

  /** Digits are the decimal text of their value, with zeros in front. */
  lemma {:induction false} DigitsArePadded(s: string) returns (k: nat)
    requires AllDigits(s) && s != ""
    ensures s == Zeros(k) + Decimal(Value(s))
  {
    var front, last := s[..|s| - 1], s[|s| - 1];
    assert s == front + [last];
    if front == "" {
      k := 0;
    } else {
      var j := DigitsArePadded(front);
      if Value(front) == 0 {
        ZerosSnoc(j);
        k := j + 1;
        assert Decimal(Value(s)) == [last] && Decimal(0) == "0";
      } else {
        k := j;
        assert Decimal(Value(s)) == Decimal(Value(front)) + [last];
        assert Zeros(j) + Decimal(Value(front)) + [last] == Zeros(j) + (Decimal(Value(front)) + [last]);
      }
    }
  }

  /** The texts of a port: an optional plus sign, any number of zeros, and its decimal digits. */
  predicate IsPortText(s: string, p: Port, sign: string, k: nat) {
    (sign == "" || sign == "+") && s == sign + Zeros(k) + Decimal(p)
  }

  lemma PortTextIsParsed(s: string, p: Port, sign: string, k: nat)
    requires IsPortText(s, p, sign, k)
    ensures ParsePort(s) == Some(p)
  {
    var digits := Zeros(k) + Decimal(p);
    ValueOfPadded(k, p);
    assert digits != "" && IsDigit(digits[0]);
    if sign == "" {
      assert s == digits;
    } else {
      assert s[0] == '+' && s[1..] == digits;
    }
  }

  lemma Unsigned(s: string, sign: string, zeros: string, digits: string)
    requires s != "" && sign == (if s[0] == '+' then "+" else "")
    requires (if s[0] == '+' then s[1..] else s) == zeros + digits
    ensures s == sign + zeros + digits
  {
  }

  lemma ParsedIsPortText(s: string) returns (sign: string, k: nat)
    requires ParsePort(s).Some?
    ensures IsPortText(s, ParsePort(s).value, sign, k)
  {
    var digits := if s[0] == '+' then s[1..] else s;
    sign := if s[0] == '+' then "+" else "";
    k := DigitsArePadded(digits);
    Unsigned(s, sign, Zeros(k), Decimal(Value(digits)));
  }

  /** Nothing else is a port. */
  lemma ParsePortIff(s: string, p: Port)
    ensures ParsePort(s) == Some(p) <==> exists sign, k :: IsPortText(s, p, sign, k)
  {
    if ParsePort(s) == Some(p) {
      var sign, k := ParsedIsPortText(s);
    }
    if sign, k :| IsPortText(s, p, sign, k) {
      PortTextIsParsed(s, p, sign, k);
    }
  }
}
