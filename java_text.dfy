/** The few pieces of the Java library the games' text files go through:
    Integer.toString, Integer.parseInt (ASCII digits) and String.split(" "). */
module JavaText {

  datatype Option<+T> = None | Some(value: T)

  const Int32Min: int := -0x8000_0000
  const Int32Max: int := 0x7fff_ffff

  predicate InInt32(n: int) {
    Int32Min <= n <= Int32Max
  }

  predicate IsDigit(c: char) {
    '0' <= c <= '9'
  }

  predicate AllDigits(s: string) {
    forall i :: 0 <= i < |s| ==> IsDigit(s[i])
  }

  function DigitChar(d: nat): (c: char)
    requires d < 10
    ensures IsDigit(c) && (c as int) - ('0' as int) == d
  {
    (('0' as int) + d) as char
  }

  function DigitValue(c: char): nat
    requires IsDigit(c)
  {
    (c as int) - ('0' as int)
  }

  /** Decimal digits of n, most significant first, no leading zeros. */
  function NatToString(n: nat): (s: string)
    ensures |s| > 0 && AllDigits(s)
    ensures |s| > 1 ==> s[0] != '0'
  {
    if n < 10 then [DigitChar(n)] else NatToString(n / 10) + [DigitChar(n % 10)]
  }

  /** Integer.toString: a '-' before the digits of a negative value. */
  function IntToString(n: int): (s: string)
    ensures |s| > 0 && ' ' !in s
  {
    if n < 0 then "-" + NatToString(-n) else NatToString(n)
  }

  /** The value of a string of decimal digits, read left to right. */
  function DigitsValue(s: string): nat
    requires AllDigits(s)
  {
    if s == [] then 0 else DigitsValue(s[..|s| - 1]) * 10 + DigitValue(s[|s| - 1])
  }

  /** Integer.parseInt: an optional sign and at least one digit, whose value
      must fit in 32 bits; anything else is a NumberFormatException (None). */
  function ParseInt(s: string): (r: Option<int>)
    ensures r.Some? ==> InInt32(r.value)
  {
    if |s| == 0 then None
    else if s[0] == '-' || s[0] == '+' then
      if |s| == 1 || !AllDigits(s[1..]) then None
      else
        var v: int := if s[0] == '-' then 0 - DigitsValue(s[1..]) else DigitsValue(s[1..]);
        if InInt32(v) then Some(v) else None
    else if AllDigits(s) && InInt32(DigitsValue(s)) then Some(DigitsValue(s))
    else None
  }

  lemma {:induction false} DigitsValueOfNatToString(n: nat)
    ensures DigitsValue(NatToString(n)) == n
  {
    var s := NatToString(n);
    if n >= 10 {
      DigitsValueOfNatToString(n / 10);
      assert s[..|s| - 1] == NatToString(n / 10);
    }
  }

  /** Reading back what Integer.toString wrote gives the same number exactly
      when it fits in an int: parseInt rejects Integer.MAX_VALUE + 1 and
      accepts Integer.MIN_VALUE. */
  lemma ParseIntOfIntToString(n: int)
    ensures ParseInt(IntToString(n)) == if InInt32(n) then Some(n) else None
  {
    var s := IntToString(n);
    if n < 0 {
      var digits := NatToString(-n);
      assert s == "-" + digits;
      assert s[0] == '-' && s[1..] == digits && |s| > 1;
      DigitsValueOfNatToString(-n);
    } else {
      var digits := NatToString(n);
      assert s == digits && IsDigit(s[0]);
      DigitsValueOfNatToString(n);
    }
  }

  /** A line that Integer.toString can never produce is rejected or read with
      leading zeros ignored: parseInt is not a bijection on strings. */
  lemma ParseIntAcceptsLeadingZeros()
    ensures ParseInt("007") == Some(7)
    ensures ParseInt("+5") == Some(5)
    ensures ParseInt("") == None && ParseInt("-") == None && ParseInt("1x") == None
  {
    assert DigitsValue("00") == 0;
    assert DigitsValue("007") == 7;
    assert DigitsValue("5") == 5;
    assert !IsDigit('x');
  }

  /** Every piece of s between single spaces, empty pieces included. */
  function SplitAtSpaces(s: string): (parts: seq<string>)
    ensures |parts| > 0
    ensures forall i :: 0 <= i < |parts| ==> ' ' !in parts[i]
  {
    if s == [] then [""]
    else
      var rest := SplitAtSpaces(s[1..]);
      if s[0] == ' ' then [""] + rest else [[s[0]] + rest[0]] + rest[1..]
  }

  function DropTrailingEmpty(parts: seq<string>): (r: seq<string>)
    ensures |r| <= |parts| && r == parts[..|r|]
    ensures |r| > 0 ==> r[|r| - 1] != ""
    ensures forall i :: |r| <= i < |parts| ==> parts[i] == ""
  {
    if |parts| > 0 && parts[|parts| - 1] == "" then DropTrailingEmpty(parts[..|parts| - 1]) else parts
  }

  /** String.split(" "): a string without a space splits into itself;
      otherwise the pieces between spaces, trailing empty pieces removed. */
  function Split(s: string): seq<string>
  {
    if ' ' !in s then [s] else DropTrailingEmpty(SplitAtSpaces(s))
  }

  lemma {:induction false} SplitAtSpacesOfJoin(a: string, b: string)
    requires ' ' !in a && ' ' !in b
    ensures SplitAtSpaces(a + " " + b) == [a, b]
  {
    if a == [] {
      assert (a + " " + b)[1..] == b;
      SplitAtSpacesOfNoSpace(b);
    } else {
      assert (a + " " + b)[1..] == a[1..] + " " + b;
      SplitAtSpacesOfJoin(a[1..], b);
      assert [a[0]] + a[1..] == a;
    }
  }

  lemma {:induction false} SplitAtSpacesOfNoSpace(s: string)
    requires ' ' !in s
    ensures SplitAtSpaces(s) == [s]
  {
    if s != [] {
      SplitAtSpacesOfNoSpace(s[1..]);
      assert [s[0]] + s[1..] == s;
    }
  }

  /** Two space-free words joined by one space split back into the two words. */
  lemma SplitOfJoin(a: string, b: string)
    requires ' ' !in a && ' ' !in b && b != ""
    ensures Split(a + " " + b) == [a, b]
  {
    assert (a + " " + b)[|a|] == ' ';
    SplitAtSpacesOfJoin(a, b);
  }

  /** What String.split(" ") does at the edges. */
  lemma SplitEdgeCases()
    ensures Split("") == [""]
    ensures Split(" ") == []
    ensures Split("1") == ["1"]
    ensures Split(" 1 2") == ["", "1", "2"]
    ensures Split("1 2 ") == ["1", "2"]
  {
    assert " "[0] == ' ' && " "[1..] == "";
    assert SplitAtSpaces(" ") == ["", ""];
    assert " 1 2"[0] == ' ' && " 1 2"[1..] == "1" + " " + "2";
    SplitAtSpacesOfJoin("1", "2");
    assert SplitAtSpaces(" 1 2") == ["", "1", "2"];
    assert "1 2 "[1] == ' ';
    assert "1 2 "[1..] == " 2 " && " 2 "[1..] == "2 " && "2 "[1..] == " ";
    assert "2 "[0] == '2' && ['2'] + "" == "2";
    assert SplitAtSpaces("2 ") == ["2", ""];
    assert SplitAtSpaces(" 2 ") == ["", "2", ""];
    assert SplitAtSpaces("1 2 ") == ["1", "2", ""];
  }
}
