/** The one message the realtime endpoint sends (`ServerMessage` / `CurrentState`
    in utility.rs) and its JSON text as serde_json writes it: fields in
    declaration order, no whitespace, `None` as `null`. */
module Wire {
  import opened Decimal
  import opened Wrappers

  /** The three values `message_type` ever takes. */
  datatype MessageType = SlidesInfo | SlideAdded | SlideDeleted

  datatype CurrentState = CurrentState(numSlides: Option<u16>, deletedSlides: Option<seq<u16>>)

  datatype ServerMessage = ServerMessage(messageType: MessageType, currentState: CurrentState)

  function TypeName(t: MessageType): string {
    match t
    case SlidesInfo => "slidesInfo"
    case SlideAdded => "slideAdded"
    case SlideDeleted => "slideDeleted"
  }

  const OpenType := "{\"message_type\":\""
  const OpenState := "\",\"current_state\":{\"num_slides\":"
  const OpenDeleted := ",\"deleted_slides\":"
  const Close := "}}"

  function NumberJson(n: Option<u16>): string {
    match n
    case None => "null"
    case Some(v) => Digits(v)
  }

  function ElementsJson(xs: seq<u16>): string
    requires |xs| > 0
  {
    if |xs| == 1 then Digits(xs[0]) else Digits(xs[0]) + ("," + ElementsJson(xs[1..]))
  }

  function ListJson(l: Option<seq<u16>>): string {
    match l
    case None => "null"
    case Some(xs) => if xs == [] then "[]" else "[" + (ElementsJson(xs) + "]")
  }

  /** `serde_json::to_string(&message)`. */
  function Serialize(m: ServerMessage): string {
    OpenType + (TypeName(m.messageType) + (OpenState + (NumberJson(m.currentState.numSlides) +
      (OpenDeleted + (ListJson(m.currentState.deletedSlides) + Close)))))
  }

  // ---------------------------------------------------------------------------
  // Reading the text back. The parser accepts serde_json's compact layout only:
  // no whitespace, and the keys in declaration order.

  function Expect(lit: string, s: string): (r: Option<string>)
    ensures r.Some? ==> |r.value| == |s| - |lit|
  {
    if lit <= s then Some(s[|lit|..]) else None
  }

  function ParseTypeName(s: string): Option<(MessageType, string)> {
    if "slidesInfo" <= s then Some((SlidesInfo, s[10..]))
    else if "slideAdded" <= s then Some((SlideAdded, s[10..]))
    else if "slideDeleted" <= s then Some((SlideDeleted, s[12..]))
    else None
  }

  /** Length of the run of digits that starts `s`. */
  function DigitSpan(s: string): (k: nat)
    ensures k <= |s| && AllDigits(s[..k])
    ensures k < |s| ==> !IsDigit(s[k])
  {
    if |s| > 0 && IsDigit(s[0]) then
      var k := 1 + DigitSpan(s[1..]);
      assert s[..k] == [s[0]] + s[1..][..k - 1];
      k
    else 0
  }

  /** A JSON number that fits a `u16`, and what follows it. */
  function ParseU16(s: string): (r: Option<(u16, string)>)
    ensures r.Some? ==> |r.value.1| < |s|
  {
    var k := DigitSpan(s);
    if k == 0 then None
    else
      var v := ValueOf(s[..k]);
      if v <= U16_MAX then Some((v, s[k..])) else None
  }

  function ParseNumber(s: string): Option<(Option<u16>, string)> {
    if "null" <= s then Some((None, s[4..]))
    else
      var (v, rest) :- ParseU16(s);
      Some((Some(v), rest))
  }

  function ParseElements(s: string): (r: Option<(seq<u16>, string)>)
    ensures r.Some? ==> |r.value.1| < |s| && |r.value.0| > 0
    decreases |s|
  {
    var (x, rest) :- ParseU16(s);
    if |rest| > 0 && rest[0] == ',' then
      var (xs, rest') :- ParseElements(rest[1..]);
      Some(([x] + xs, rest'))
    else Some(([x], rest))
  }

  function ParseList(s: string): Option<(Option<seq<u16>>, string)> {
    if "null" <= s then Some((None, s[4..]))
    else if "[]" <= s then Some((Some([]), s[2..]))
    else if "[" <= s then
      var (xs, rest) :- ParseElements(s[1..]);
      var rest' :- Expect("]", rest);
      Some((Some(xs), rest'))
    else None
  }

  /** Reads a whole message; `None` for anything `Serialize` cannot have written. */
  function Parse(s: string): Option<ServerMessage> {
    var r1 :- Expect(OpenType, s);
    var (t, r2) :- ParseTypeName(r1);
    var r3 :- Expect(OpenState, r2);
    var (n, r4) :- ParseNumber(r3);
    var r5 :- Expect(OpenDeleted, r4);
    var (d, r6) :- ParseList(r5);
    var r7 :- Expect(Close, r6);
    if r7 == [] then Some(ServerMessage(t, CurrentState(n, d))) else None
  }

  // ---------------------------------------------------------------------------
  // Round trip

  lemma ExpectPrefix(lit: string, rest: string)
    ensures Expect(lit, lit + rest) == Some(rest)
  {
    assert (lit + rest)[..|lit|] == lit;
    assert (lit + rest)[|lit|..] == rest;
  }

  lemma ParseTypeNameRoundTrip(t: MessageType, rest: string)
    ensures ParseTypeName(TypeName(t) + rest) == Some((t, rest))
  {
    var s := TypeName(t) + rest;
    ExpectPrefix(TypeName(t), rest);
    assert s[5] == TypeName(t)[5];
    if t == SlideAdded {
      assert !("slidesInfo" <= s) by { assert "slidesInfo"[5] != s[5]; }
    } else if t == SlideDeleted {
      assert !("slidesInfo" <= s) by { assert "slidesInfo"[5] != s[5]; }
      assert !("slideAdded" <= s) by { assert "slideAdded"[5] != s[5]; }
    }
  }

  lemma {:induction false} DigitSpanOf(d: string, rest: string)
    requires AllDigits(d)
    requires rest == [] || !IsDigit(rest[0])
    ensures DigitSpan(d + rest) == |d|
    decreases |d|
  {
    if d == [] {
      assert d + rest == rest;
    } else {
      assert (d + rest)[1..] == d[1..] + rest;
      DigitSpanOf(d[1..], rest);
    }
  }

  lemma ParseU16RoundTrip(n: u16, rest: string)
    requires rest == [] || !IsDigit(rest[0])
    ensures ParseU16(Digits(n) + rest) == Some((n, rest))
  {
    var d := Digits(n);
    DigitSpanOf(d, rest);
    assert (d + rest)[..|d|] == d;
    assert (d + rest)[|d|..] == rest;
    ValueOfDigits(n);
  }

  lemma ParseNumberRoundTrip(n: Option<u16>, rest: string)
    requires rest == [] || !IsDigit(rest[0])
    ensures ParseNumber(NumberJson(n) + rest) == Some((n, rest))
  {
    match n
    case None =>
      ExpectPrefix("null", rest);
    case Some(v) =>
      var s := Digits(v) + rest;
      assert !("null" <= s) by { assert IsDigit(s[0]); }
      ParseU16RoundTrip(v, rest);
  }

  lemma {:induction false} ParseElementsRoundTrip(xs: seq<u16>, rest: string)
    requires |xs| > 0
    requires |rest| > 0 && rest[0] == ']'
    ensures ParseElements(ElementsJson(xs) + rest) == Some((xs, rest))
    decreases |xs|
  {
    var s := ElementsJson(xs) + rest;
    if |xs| == 1 {
      assert s == Digits(xs[0]) + rest;
      ParseU16RoundTrip(xs[0], rest);
      assert [xs[0]] == xs;
    } else {
      var tail := ElementsJson(xs[1..]) + rest;
      var after := "," + tail;
      assert s == Digits(xs[0]) + after;
      ParseU16RoundTrip(xs[0], after);
      assert after[1..] == tail;
      ParseElementsRoundTrip(xs[1..], rest);
      assert ParseElements(tail) == Some((xs[1..], rest));
      assert [xs[0]] + xs[1..] == xs;
    }
  }

  lemma ParseListRoundTrip(l: Option<seq<u16>>, rest: string)
    ensures ParseList(ListJson(l) + rest) == Some((l, rest))
  {
    match l
    case None =>
      ExpectPrefix("null", rest);
    case Some(xs) =>
      if xs == [] {
        assert !("null" <= "[]" + rest) by { assert ("[]" + rest)[0] == '['; }
        ExpectPrefix("[]", rest);
      } else {
        var s := ListJson(l) + rest;
        var e := ElementsJson(xs);
        assert s == "[" + (e + ("]" + rest));
        assert !("null" <= s) by { assert s[0] == '['; }
        assert !("[]" <= s) by { assert s[1] == e[0]; }
        ExpectPrefix("[", e + ("]" + rest));
        ParseElementsRoundTrip(xs, "]" + rest);
        ExpectPrefix("]", rest);
      }
  }

  /** Every message the server writes reads back as itself. */
  lemma ParseSerialize(m: ServerMessage)
    ensures Parse(Serialize(m)) == Some(m)
  {
    var t, n, d := m.messageType, m.currentState.numSlides, m.currentState.deletedSlides;
    var r6 := Close;
    var r5 := ListJson(d) + r6;
    var r4 := OpenDeleted + r5;
    var r3 := NumberJson(n) + r4;
    var r2 := OpenState + r3;
    var r1 := TypeName(t) + r2;
    ExpectPrefix(OpenType, r1);
    ParseTypeNameRoundTrip(t, r2);
    ExpectPrefix(OpenState, r3);
    ParseNumberRoundTrip(n, r4);
    ExpectPrefix(OpenDeleted, r5);
    ParseListRoundTrip(d, r6);
    ExpectPrefix(Close, []);
    assert Close + [] == Close;
  }

  /** Distinct messages are written as distinct texts. */
  lemma SerializeInjective(m1: ServerMessage, m2: ServerMessage)
    ensures Serialize(m1) == Serialize(m2) <==> m1 == m2
  {
    ParseSerialize(m1);
    ParseSerialize(m2);
  }
}
