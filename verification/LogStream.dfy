/** Printing integers into a log buffer: digits are produced from the right and reversed in place. */
module LogStream {
  import opened Numerals

  const MAX_NUMERIC_SIZE := 32
  const MIRROR := "9876543210123456789"     // the digit of d stands at 9 + d, for d from -9 to 9

  /** Division and remainder as C defines them: towards zero. */
  function Quotient(i: int, base: nat): int
    requires base > 0
  {
    if i >= 0 then i / base else -((-i) / base)
  }

  function Remainder(i: int, base: nat): int
    requires base > 0
  {
    if i >= 0 then i % base else -((-i) % base)
  }

  function Magnitude(i: int): nat {
    if i < 0 then -i else i
  }

  /** A text read from its end. */
  function TurnedRound(text: string): string {
    if text == "" then "" else [text[|text| - 1]] + TurnedRound(text[..|text| - 1])
  }

  /** The digits in the order in which they are produced. */
  function LowFirst(n: nat, base: nat): string
    requires IsBase(base)
  {
    if n < base then [DIGITS[n]]
    else
      Smaller(n, base);
      [DIGITS[n % base]] + LowFirst(n / base, base)
  }

  /** A digit produced first is read last. */
  lemma {:induction false} FirstDigitLast(c: char, text: string)
    ensures TurnedRound([c] + text) == TurnedRound(text) + [c]
  {
    var whole := [c] + text;
    if text == "" {
      assert whole == [c] && whole[..|whole| - 1] == "";
    } else {
      assert whole[..|whole| - 1] == [c] + text[..|text| - 1];
      FirstDigitLast(c, text[..|text| - 1]);
    }
  }

  /** The sign, stored last, is read first. */
  lemma SignFirst(digits: string, sign: char)
    ensures TurnedRound(digits + [sign]) == [sign] + TurnedRound(digits)
  {
    assert (digits + [sign])[..|digits|] == digits;
  }

  lemma {:induction false} LowFirstTurned(n: nat, base: nat)
    requires IsBase(base)
    ensures TurnedRound(LowFirst(n, base)) == Numeral(n, base) && |LowFirst(n, base)| == |Numeral(n, base)|
  {
    if n < base {
      assert [DIGITS[n]][..0] == "";
    } else {
      Smaller(n, base);
      LowFirstTurned(n / base, base);
      FirstDigitLast(DIGITS[n % base], LowFirst(n / base, base));
    }
  }

  /** What is still to come when n is left: nothing for 0 once a digit was stored. */
  function Rest(n: nat, base: nat): string
    requires IsBase(base)
  {
    if n == 0 then "" else LowFirst(n, base)
  }

  lemma NothingLeft(base: nat)
    requires IsBase(base)
    ensures Rest(0, base) == ""
  {
  }

  /** Storing one digit moves it from what is to come to what is done. */
  lemma StoreDigit(done: string, n: nat, base: nat)
    requires IsBase(base)
    ensures (done + [DIGITS[n % base]]) + Rest(n / base, base) == done + LowFirst(n, base)
  {
    if n >= base {
      Smaller(n, base);
    } else {
      assert n / base == 0 && n % base == n by { DivisionUnique(0, n, base); }
    }
  }

  lemma MirrorTable(d: nat)
    requires d < 10
    ensures MIRROR[9 + d] == DIGITS[d] && MIRROR[9 - d] == DIGITS[d]
  {
  }

  /** The mirrored table gives the digit of a remainder of either sign. */
  lemma MirrorDigit(i: int)
    ensures 0 <= 9 + Remainder(i, 10) < |MIRROR|
    ensures MIRROR[9 + Remainder(i, 10)] == DIGITS[Magnitude(i) % 10]
  {
    MirrorTable(Magnitude(i) % 10);
    assert |MIRROR| == 19;
    hide MIRROR, DIGITS;
  }

  lemma MagnitudeQuotient(i: int, base: nat)
    requires IsBase(base)
    ensures Magnitude(Quotient(i, base)) == Magnitude(i) / base
    ensures Quotient(i, base) == 0 <==> Magnitude(Quotient(i, base)) == 0
    ensures Quotient(i, base) != 0 ==> Magnitude(Quotient(i, base)) < Magnitude(i)
    ensures 0 <= i ==> 0 <= Quotient(i, base) <= i
    ensures i <= 0 ==> i <= Quotient(i, base) <= 0
  {
    if base == 10 {
      assert Magnitude(Quotient(i, 10)) == Magnitude(i) / 10;
    } else {
      assert Magnitude(Quotient(i, 16)) == Magnitude(i) / 16;
    }
  }

  /** Nothing outside from..to was changed. */
  twostate predicate Only(buf: array<char>, from: nat, to: nat)
    reads buf
  {
    forall k :: 0 <= k < buf.Length && !(from <= k < to) ==> buf[k] == old(buf[k])
  }

  /** Mirrored positions hold the same characters. */
  ghost predicate Mirrored(text: string, turned: string) {
    |turned| == |text| && forall k :: 0 <= k < |text| ==> turned[k] == text[|text| - 1 - k]
  }

  lemma {:induction false} MirroredIsTurned(text: string, turned: string)
    requires Mirrored(text, turned)
    ensures turned == TurnedRound(text)
    decreases |text|
  {
    if text != "" {
      var front := text[..|text| - 1];
      forall k | 0 <= k < |front|
        ensures turned[1..][k] == front[|front| - 1 - k]
      {
        assert turned[k + 1] == text[|text| - 1 - (k + 1)];
      }
      MirroredIsTurned(front, turned[1..]);
      assert turned[0] == text[|text| - 1];
      assert turned == [turned[0]] + turned[1..];
    }
  }

  /** std::reverse: swaps from the ends inwards. */
  method ReverseRange(buf: array<char>, from: nat, to: nat)
    requires from <= to <= buf.Length
    modifies buf
    ensures buf[from..to] == TurnedRound(old(buf[from..to]))
    ensures Only(buf, from, to)
  {
    var first, last := from, to;
    while first < last
      invariant from <= first <= to && last == from + to - first && first <= last + 1
      invariant forall k :: from <= k < first ==> buf[k] == old(buf[from + to - 1 - k])
      invariant forall k :: last <= k < to ==> buf[k] == old(buf[from + to - 1 - k])
      invariant forall k :: first <= k < last ==> buf[k] == old(buf[k])
      invariant Only(buf, from, to)
      decreases last - first
    {
      last := last - 1;
      if first < last {
        buf[first], buf[last] := buf[last], buf[first];
      }
      first := first + 1;
    }
    ghost var text, turned := old(buf[from..to]), buf[from..to];
    forall k | 0 <= k < |text|
      ensures turned[k] == text[|text| - 1 - k]
    {
      assert turned[k] == buf[from + k];
      assert text[|text| - 1 - k] == old(buf[to - 1 - k]);
    }
    MirroredIsTurned(text, turned);
  }

  /** Stores one character behind the ones stored since at. */
  method Store(buf: array<char>, at: nat, p: nat, c: char) returns (next: nat)
    requires at <= p < buf.Length
    modifies buf
    ensures next == p + 1
    ensures buf[at..next] == old(buf[at..p]) + [c]
    ensures Only(buf, p, next)
  {
    buf[p] := c;
    next := p + 1;
  }

  /** Ends the text at p and turns it round. */
  method Finish(buf: array<char>, at: nat, p: nat) returns (length: nat)
    requires at <= p < buf.Length
    modifies buf
    ensures length == p - at
    ensures buf[at..p] == TurnedRound(old(buf[at..p])) && buf[p] == '\0'
    ensures Only(buf, at, p + 1)
  {
    hide TurnedRound;
    buf[p] := '\0';
    assert buf[at..p] == old(buf[at..p]);
    ReverseRange(buf, at, p);
    length := p - at;
  }

  /** The loop of Convert: digits from the right. The value is never negated, so the smallest integer of
      any width is treated like any other. */
  method StoreDigits(buf: array<char>, at: nat, value: int) returns (p: nat)
    requires at + |LowFirst(Magnitude(value), 10)| < buf.Length
    modifies buf
    ensures at <= p < buf.Length
    ensures buf[at..p] == LowFirst(Magnitude(value), 10)
    ensures Only(buf, at, p)
  {
    var i, more := value, true;
    p := at;
    ghost var all := LowFirst(Magnitude(value), 10);
    hide LowFirst, Magnitude, Quotient, Remainder, Rest;
    while more
      invariant at <= p <= at + |all|
      invariant all == buf[at..p] + if more then LowFirst(Magnitude(i), 10) else Rest(Magnitude(i), 10)
      invariant !more ==> Magnitude(i) == 0
      invariant Only(buf, at, p)
      invariant 0 <= i <= value || value <= i <= 0
      decreases Magnitude(i), more
    {
      MirrorDigit(i);
      MagnitudeQuotient(i, 10);
      var index := Remainder(i, 10);
      StoreDigit(buf[at..p], Magnitude(i), 10);
      p := Store(buf, at, p, MIRROR[9 + index]);
      i := Quotient(i, 10);
      more := i != 0;
    }
    NothingLeft(10);
  }

  /** What is stored before the text is turned round: the digits and then the sign. */
  function Produced(value: int): string {
    LowFirst(Magnitude(value), 10) + if value < 0 then "-" else ""
  }

  lemma ProducedTurned(value: int)
    ensures TurnedRound(Produced(value)) == Printed(value) && |Produced(value)| == |Printed(value)|
  {
    LowFirstTurned(Magnitude(value), 10);
    if value < 0 {
      SignFirst(LowFirst(Magnitude(value), 10), '-');
    } else {
      assert Produced(value) == LowFirst(Magnitude(value), 10);
    }
  }

  method StoreSigned(buf: array<char>, at: nat, value: int) returns (p: nat)
    requires at + |Produced(value)| < buf.Length
    modifies buf
    ensures at <= p < buf.Length
    ensures buf[at..p] == Produced(value)
    ensures Only(buf, at, p)
  {
    hide LowFirst, Magnitude;
    p := StoreDigits(buf, at, value);
    if value < 0 {
      p := Store(buf, at, p, '-');
    }
  }

  /** Prints value in decimal from position at on, followed by a zero character. */
  method Convert(buf: array<char>, at: nat, value: int) returns (length: nat)
    requires at + |Printed(value)| < buf.Length
    modifies buf
    ensures length == |Printed(value)|
    ensures buf[at..at + length] == Printed(value) && buf[at + length] == '\0'
    ensures Only(buf, at, at + length + 1) && buf[..at] == old(buf[..at])
  {
    ProducedTurned(value);
    hide Produced, Printed, TurnedRound;
    var p := StoreSigned(buf, at, value);
    length := Finish(buf, at, p);
  }

  method StoreHexDigits(buf: array<char>, at: nat, value: nat) returns (p: nat)
    requires at + |LowFirst(value, 16)| < buf.Length
    modifies buf
    ensures at <= p < buf.Length
    ensures buf[at..p] == LowFirst(value, 16)
    ensures Only(buf, at, p)
  {
    var i, more := value, true;
    p := at;
    ghost var all := LowFirst(value, 16);
    hide LowFirst, Rest;
    while more
      invariant at <= p <= at + |all|
      invariant all == buf[at..p] + if more then LowFirst(i, 16) else Rest(i, 16)
      invariant !more ==> i == 0
      invariant Only(buf, at, p)
      decreases i, more
    {
      StoreDigit(buf[at..p], i, 16);
      p := Store(buf, at, p, DIGITS[i % 16]);
      i := i / 16;
      more := i != 0;
    }
    NothingLeft(16);
  }

  /** Prints value in base 16 from position at on, followed by a zero character. */
  method ConvertHex(buf: array<char>, at: nat, value: nat) returns (length: nat)
    requires at + |Numeral(value, 16)| < buf.Length
    modifies buf
    ensures length == |Numeral(value, 16)|
    ensures buf[at..at + length] == Numeral(value, 16) && buf[at + length] == '\0'
    ensures Only(buf, at, at + length + 1) && buf[..at] == old(buf[..at])
  {
    ghost var digits, text := LowFirst(value, 16), Numeral(value, 16);
    LowFirstTurned(value, 16);
    hide *;
    var p := StoreHexDigits(buf, at, value);
    assert p == at + |digits| && buf[at..p] == digits;
    length := Finish(buf, at, p);
    assert buf[at..p] == text;
  }

  /** A log stream's buffer: an array of characters filled from the front. */
  class FixedBuffer {
    const data: array<char>
    var length: nat

    ghost predicate Valid()
      reads this
    {
      length <= data.Length
    }

    ghost function Contents(): string
      requires Valid()
      reads this, data
    {
      data[..length]
    }

    constructor (size: nat)
      ensures Valid() && fresh(data) && data.Length == size && Contents() == ""
    {
      data := new char[size];
      length := 0;
    }

    function Available(): nat
      requires Valid()
      reads this
    {
      data.Length - length
    }

    /** Text goes in only when more room is left than it needs. */
    method Append(text: string)
      requires Valid()
      modifies this`length, data
      ensures Valid()
      ensures Contents() == if old(Available()) > |text| then old(Contents()) + text else old(Contents())
    {
      if Available() > |text| {
        ghost var before := data[..length];
        forall k | 0 <= k < |text| {
          data[length + k] := text[k];
        }
        assert data[..length] == before && data[length..length + |text|] == text;
        length := length + |text|;
        assert data[..length] == before + text;
      }
    }

    /** Takes in the characters that were put behind the contents. */
    method Add(added: nat)
      requires Valid() && added <= Available()
      modifies this`length
      ensures Valid() && Contents() == old(Contents()) + data[old(length)..old(length) + added]
    {
      length := length + added;
    }

    /** Prints a 64-bit integer when more than MAX_NUMERIC_SIZE characters are free, and otherwise
        nothing. */
    method FormatInteger(value: int)
      requires Valid() && -0x8000_0000_0000_0000 <= value < 0x1_0000_0000_0000_0000
      modifies this`length, data
      ensures Valid()
      ensures Contents() ==
              if old(Available()) > MAX_NUMERIC_SIZE then old(Contents()) + Printed(value) else old(Contents())
    {
      SixtyFourBitsFit(value);
      hide Printed, Numeral;
      if Available() > MAX_NUMERIC_SIZE {
        var added := Convert(data, length, value);
        Add(added);
      }
    }

    /** Prints a 64-bit address in base 16 behind 0x. */
    method FormatAddress(address: nat)
      requires Valid() && address < 0x1_0000_0000_0000_0000
      modifies this`length, data
      ensures Valid()
      ensures Contents() ==
              if old(Available()) >= MAX_NUMERIC_SIZE then old(Contents()) + "0x" + Numeral(address, 16)
              else old(Contents())
    {
      SixtyFourBitsFit(address);
      hide Numeral, Printed;
      if Available() >= MAX_NUMERIC_SIZE {
        Prefix();
        var added := ConvertHex(data, length, address);
        Add(added);
      }
    }

    method Prefix()
      requires Valid() && Available() >= 2
      modifies this`length, data
      ensures Valid() && length == old(length) + 2 && Contents() == old(Contents()) + "0x"
    {
      ghost var was := Contents();
      data[length] := '0';
      data[length + 1] := 'x';
      assert data[..length] == was;
      Add(2);
    }
  }
}
