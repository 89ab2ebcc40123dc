/** The line protocol between the two players: a line starting with "M:" is
    chat, any other line is the decimal index of a move. Moves are read with
    Java's Integer.parseInt, modelled here for ASCII decimal text. */
module Protocol {

  datatype Option<+T> = None | Some(value: T)

  /** How a received line is read: chat with the prefix stripped, or the raw
      text of a move attempt. */
  datatype Line = Chat(text: string) | MoveText(raw: string)

  const ChatPrefix: string := "M:"

  /** Bounds of a Java int. */
  const IntMin: int := -0x8000_0000
  const IntMax: int := 0x7fff_ffff

  /** String.startsWith("M:") followed by substring(2) on chat lines. */
  function Classify(line: string): (l: Line)
    ensures l.Chat? <==> ChatPrefix <= line
    ensures l.Chat? ==> line == ChatPrefix + l.text
    ensures l.MoveText? ==> l.raw == line
  {
    if ChatPrefix <= line then Chat(line[|ChatPrefix|..]) else MoveText(line)
  }

  /** The line a chat message travels as. */
  function EncodeChat(text: string): string
  {
    ChatPrefix + text
  }

  lemma ChatRoundTrip(text: string)
    ensures Classify(EncodeChat(text)) == Chat(text)
  {
  }

  predicate IsDigit(c: char)
  {
    '0' <= c <= '9'
  }

  predicate AllDigits(s: string)
  {
    forall k :: 0 <= k < |s| ==> IsDigit(s[k])
  }

  /** The value of a string of decimal digits, most significant first. */
  function DigitsValue(s: string): (v: nat)
    requires AllDigits(s)
  {
    if s == [] then 0
    else DigitsValue(s[..|s| - 1]) * 10 + (s[|s| - 1] as int - '0' as int)
  }

  /** Integer.parseInt(s) with radix 10: an optional '-' or '+' sign, then at
      least one digit, and a value that fits in a Java int; None stands for
      the NumberFormatException. */
  function ParseInt(s: string): (r: Option<int>)
    ensures r.Some? ==> IntMin <= r.value <= IntMax
    ensures r.Some? ==> |s| > 0 && (AllDigits(s) || (|s| > 1 && (s[0] == '-' || s[0] == '+') && AllDigits(s[1..])))
    ensures r.Some? && r.value < 0 ==> s[0] == '-'
    ensures |s| > 0 && AllDigits(s) ==> r == (if DigitsValue(s) <= IntMax then Some(DigitsValue(s)) else None)
    ensures |s| > 1 && s[0] == '+' && AllDigits(s[1..]) ==>
      r == (if DigitsValue(s[1..]) <= IntMax then Some(DigitsValue(s[1..])) else None)
    ensures |s| > 1 && s[0] == '-' && AllDigits(s[1..]) ==>
      r == (if DigitsValue(s[1..]) <= -IntMin then Some(-(DigitsValue(s[1..]) as int)) else None)
  {
    if |s| == 0 then None
    else if s[0] == '-' || s[0] == '+' then
      if |s| == 1 || !AllDigits(s[1..]) then None
      else
        var v: int := if s[0] == '-' then -(DigitsValue(s[1..]) as int) else DigitsValue(s[1..]);
        if IntMin <= v <= IntMax then Some(v) else None
    else if !AllDigits(s) then None
    else
      var v := DigitsValue(s);
      if v <= IntMax then Some(v) else None
  }

  /** The canonical decimal text of a non-negative index, as a player types it. */
  function Decimal(n: nat): (s: string)
    decreases n
  {
    if n < 10 then ['0' + n as char]
    else Decimal(n / 10) + ['0' + (n % 10) as char]
  }

  lemma {:induction false} DecimalDigits(n: nat)
    ensures |Decimal(n)| > 0 && AllDigits(Decimal(n))
    ensures DigitsValue(Decimal(n)) == n
    decreases n
  {
    if n >= 10 {
      DecimalDigits(n / 10);
      var s := Decimal(n);
      assert s[..|s| - 1] == Decimal(n / 10);
    }
  }

  /** A move index written in decimal is read back as a move and parsed to the
      same index by the receiving side. */
  lemma MoveRoundTrip(n: nat)
    requires n <= IntMax
    ensures Classify(Decimal(n)) == MoveText(Decimal(n))
    ensures ParseInt(Decimal(n)) == Some(n)
  {
    DecimalDigits(n);
    assert IsDigit(Decimal(n)[0]);
  }
}
