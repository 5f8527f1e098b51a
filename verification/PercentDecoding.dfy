/** Percent decoding: the byte loop against the grammar it implements, and its inverse. */
module PercentDecoding {
  import opened Octets

  function PlusAsSpace(c: Octet): Octet {
    if c == '+' then ' ' else c
  }

  function Literal(plus: bool, c: Octet): Octet {
    if plus then PlusAsSpace(c) else c
  }

  function Byte(high: Octet, low: Octet): Octet
    requires IsHex(high) && IsHex(low)
  {
    (16 * HexValue(high) + HexValue(low)) as char
  }

  /** What an encoded text stands for, read from the left with two characters of lookahead. A percent sign
      that starts no escape is kept; the character right after it has its plus sign replaced even where
      plus signs are otherwise kept. */
  function Decoded(plus: bool, s: Text): Text {
    if s == [] then [] else UnitText(plus, s) + Decoded(plus, s[UnitLen(s)..])
  }

  /** How many characters the first unit takes, and what it stands for. */
  function UnitLen(s: Text): (n: nat)
    requires s != []
    ensures 1 <= n <= |s|
  {
    if s[0] != '%' || |s| == 1 then 1 else if !IsHex(s[1]) || |s| == 2 then 2 else 3
  }

  function UnitText(plus: bool, s: Text): Text
    requires s != []
  {
    if s[0] != '%' then [Literal(plus, s[0])]
    else if |s| == 1 then ['%']
    else if !IsHex(s[1]) then ['%', PlusAsSpace(s[1])]
    else if |s| == 2 then ['%', s[1]]
    else if !IsHex(s[2]) then ['%', s[1], Literal(plus, s[2])]
    else [Byte(s[1], s[2])]
  }

  datatype State = Normal | Percent | Percent1

  /** How many characters of an unfinished escape lie behind the cursor. */
  function Pending(state: State): nat {
    match state case Normal => 0 case Percent => 1 case Percent1 => 2
  }

  /** The characters before `r` have been decoded into `result`, up to an unfinished escape. */
  ghost predicate Scanned(plus: bool, sv: Text, r: nat, state: State, result: Text) {
    && Pending(state) <= r <= |sv|
    && (state == Percent ==> sv[r - 1] == '%')
    && (state == Percent1 ==> sv[r - 2] == '%' && IsHex(sv[r - 1]))
    && result + Decoded(plus, sv[r - Pending(state)..]) == Decoded(plus, sv)
  }

  method DecodePercent(plus: bool, sv: Text) returns (result: Text)
    ensures result == Decoded(plus, sv)
  {
    result := [];
    var state, r := Normal, 0;
    AtStart(plus, sv);
    while r < |sv|
      invariant Scanned(plus, sv, r, state, result)
    {
      state, result := Take(plus, sv, r, state, result);
      r := r + 1;
    }
    result := Finish(plus, sv, state, result);
  }

  /** What is left of an unfinished escape is kept. */
  method Finish(plus: bool, sv: Text, state: State, result: Text) returns (whole: Text)
    requires Scanned(plus, sv, |sv|, state, result)
    ensures whole == Decoded(plus, sv)
  {
    AtEnd(plus, sv, state, result);
    whole := result;
    if state == Percent {
      whole := whole + ['%'];
    } else if state == Percent1 {
      whole := whole + ['%', sv[|sv| - 1]];
    }
  }

  /** The switch on the state. */
  method Take(plus: bool, sv: Text, r: nat, state: State, result: Text) returns (state': State, result': Text)
    requires Scanned(plus, sv, r, state, result) && r < |sv|
    ensures Scanned(plus, sv, r + 1, state', result')
  {
    var c := sv[r];
    match state {
      case Normal =>
        if c == '%' {
          return Percent, result;
        }
        Emits(plus, sv, r, state, result);
        return Normal, result + [Literal(plus, c)];
      case Percent =>
        if IsHex(c) {
          return Percent1, result;
        }
        Emits(plus, sv, r, state, result);
        return Normal, result + ['%', PlusAsSpace(c)];
      case Percent1 =>
        Emits(plus, sv, r, state, result);
        if IsHex(c) {
          return Normal, result + [Byte(sv[r - 1], c)];
        }
        return Normal, result + ['%', sv[r - 1], Literal(plus, c)];
    }
  }

  /** The character at `r` neither starts nor continues an escape. */
  predicate Ends(state: State, c: Octet) {
    match state case Normal => c != '%' case Percent => !IsHex(c) case Percent1 => true
  }

  /** What has been read since the last unit, when it is a unit now. */
  function Output(plus: bool, sv: Text, r: nat, state: State): Text
    requires Pending(state) <= r < |sv| && (state == Percent1 ==> IsHex(sv[r - 1]))
  {
    match state
    case Normal => [Literal(plus, sv[r])]
    case Percent => ['%', PlusAsSpace(sv[r])]
    case Percent1 => if IsHex(sv[r]) then [Byte(sv[r - 1], sv[r])] else ['%', sv[r - 1], Literal(plus, sv[r])]
  }

  lemma UnitBehind(plus: bool, sv: Text, r: nat, state: State, result: Text)
    requires Scanned(plus, sv, r, state, result) && r < |sv| && Ends(state, sv[r])
    ensures UnitLen(sv[r - Pending(state)..]) == Pending(state) + 1
    ensures UnitText(plus, sv[r - Pending(state)..]) == Output(plus, sv, r, state)
  {
  }

  lemma Emits(plus: bool, sv: Text, r: nat, state: State, result: Text)
    requires Scanned(plus, sv, r, state, result) && r < |sv| && Ends(state, sv[r])
    ensures Scanned(plus, sv, r + 1, Normal, result + Output(plus, sv, r, state))
  {
    var at, out := r - Pending(state), Output(plus, sv, r, state);
    UnitBehind(plus, sv, r, state, result);
    Emit(plus, sv, result, at, r + 1, out);
    assert r + 1 - Pending(Normal) == r + 1;
  }

  lemma Emit(plus: bool, sv: Text, result: Text, at: nat, next: nat, out: Text)
    requires at < |sv| && result + Decoded(plus, sv[at..]) == Decoded(plus, sv)
    requires out == UnitText(plus, sv[at..]) && next == at + UnitLen(sv[at..])
    ensures next <= |sv| && (result + out) + Decoded(plus, sv[next..]) == Decoded(plus, sv)
  {
    assert sv[at..][next - at..] == sv[next..];
    Regroup(result, out, Decoded(plus, sv[next..]));
  }

  lemma AtStart(plus: bool, sv: Text)
    ensures Scanned(plus, sv, 0, Normal, [])
  {
    assert sv[0..] == sv && [] + Decoded(plus, sv) == Decoded(plus, sv);
  }

  lemma AtEnd(plus: bool, sv: Text, state: State, result: Text)
    requires Scanned(plus, sv, |sv|, state, result)
    ensures state == Normal ==> result == Decoded(plus, sv)
    ensures state == Percent ==> result + ['%'] == Decoded(plus, sv)
    ensures state == Percent1 ==> result + ['%', sv[|sv| - 1]] == Decoded(plus, sv)
  {
    var tail := sv[|sv| - Pending(state)..];
    assert Decoded(plus, []) == [];
    if state == Normal {
      assert tail == [] && result + [] == result;
    } else {
      assert tail == if state == Percent then ['%'] else ['%', sv[|sv| - 1]];
      assert tail[UnitLen(tail)..] == [] && UnitText(plus, tail) + [] == tail;
    }
  }

  // ----------------------------------------------------- any spelling a client may choose

  /** A character as it is, a space as a plus sign, or any character by two hexadecimal digits in either case. */
  datatype Spelling = Plain | Plus | Hex(high: Octet, low: Octet)

  datatype Coded = Coded(c: Octet, how: Spelling)

  predicate IsCoded(plus: bool, u: Coded) {
    match u.how
    case Plain => u.c != '%' && (plus ==> u.c != '+')
    case Plus => plus && u.c == ' '
    case Hex(high, low) => IsHex(high) && IsHex(low) && u.c as int == 16 * HexValue(high) + HexValue(low)
  }

  predicate AllCoded(plus: bool, us: seq<Coded>) {
    forall i :: 0 <= i < |us| ==> IsCoded(plus, us[i])
  }

  function CodedUnit(u: Coded): Text {
    match u.how case Plain => [u.c] case Plus => ['+'] case Hex(high, low) => ['%', high, low]
  }

  function CodedText(us: seq<Coded>): Text {
    if us == [] then [] else CodedUnit(us[0]) + CodedText(us[1..])
  }

  function Chars(us: seq<Coded>): Text {
    if us == [] then [] else [us[0].c] + Chars(us[1..])
  }

  /** Whatever spelling was chosen for each character, decoding gives the characters. */
  lemma {:induction false} DecodedCoded(plus: bool, us: seq<Coded>)
    requires AllCoded(plus, us)
    ensures Decoded(plus, CodedText(us)) == Chars(us)
  {
    if us != [] {
      DecodedCoded(plus, us[1..]);
      FirstUnit(plus, us[0], CodedText(us[1..]));
    }
  }

  lemma FirstUnit(plus: bool, u: Coded, rest: Text)
    requires IsCoded(plus, u)
    ensures var s := CodedUnit(u) + rest; UnitText(plus, s) == [u.c] && s[UnitLen(s)..] == rest
  {
    var s := CodedUnit(u) + rest;
    assert UnitLen(s) == |CodedUnit(u)|;
  }

  /** No character of this kind is sent as it is. */
  predicate NeverPlain(us: seq<Coded>, c: Octet) {
    forall i :: 0 <= i < |us| ==> us[i] != Coded(c, Plain)
  }

  lemma {:induction false} CodedAvoids(plus: bool, us: seq<Coded>, c: Octet)
    requires AllCoded(plus, us) && NeverPlain(us, c) && c != '%' && c != '+' && !IsHex(c)
    ensures c !in CodedText(us)
  {
    if us != [] {
      CodedAvoids(plus, us[1..], c);
    }
  }

  /** Text without percent signs, and without plus signs where they count, stands for itself. */
  lemma {:induction false} DecodedPlain(plus: bool, s: Text)
    requires '%' !in s && (plus ==> '+' !in s)
    ensures Decoded(plus, s) == s
  {
    if s != [] {
      DecodedPlain(plus, s[1..]);
      assert UnitText(plus, s) == [s[0]];
    }
  }

  predicate StartsEscape(s: Text, i: nat)
    requires i < |s|
  {
    i + 2 < |s| && s[i] == '%' && IsHex(s[i + 1]) && IsHex(s[i + 2])
  }

  lemma UnitUnescaped(plus: bool, s: Text)
    requires s != [] && '+' !in s && !StartsEscape(s, 0)
    ensures UnitText(plus, s) == s[..UnitLen(s)]
  {
    assert forall i :: 0 <= i < |s| ==> s[i] in s;
  }

  /** Text without an escape or a plus sign is left alone, stray percent signs included. */
  lemma {:induction false} DecodedUnescaped(plus: bool, s: Text)
    requires '+' !in s && forall i :: 0 <= i < |s| ==> !StartsEscape(s, i)
    ensures Decoded(plus, s) == s
  {
    if s != [] {
      var rest := s[UnitLen(s)..];
      UnitUnescaped(plus, s);
      forall i | 0 <= i < |rest| ensures !StartsEscape(rest, i) {
        assert !StartsEscape(s, UnitLen(s) + i);
      }
      DecodedUnescaped(plus, rest);
    }
  }
}
