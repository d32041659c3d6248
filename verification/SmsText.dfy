/** Message text: segment counting and the admission of messages to forwarding. */
module SmsText {
  import opened Wrappers

  /** `stamp` is the network timestamp as formatted for the inbox, `rawTime` the one
      the modem reported, and `sourceTime` its value in milliseconds, if it parses. */
  datatype Message = Message(number: string, text: string, stamp: string, path: string, rawTime: string, sourceTime: Option<int>)

  // The default alphabet of GSM-7, sixteen characters at a time.
  const BASIC_0: string := "@£$¥èéùìòÇ\nØø\rÅå"
  const BASIC_1: string := "Δ_ΦΓΛΩΠΨΣΘΞÆæßÉ "
  const BASIC_2: string := "!\"#¤%&'()*+,-./0"
  const BASIC_3: string := "123456789:;<=>?¡"
  const BASIC_4: string := "ABCDEFGHIJKLMNOP"
  const BASIC_5: string := "QRSTUVWXYZÄÖÑÜ§¿"
  const BASIC_6: string := "abcdefghijklmnop"
  const BASIC_7: string := "qrstuvwxyzäöñüà"
  const BASIC: string := BASIC_0 + BASIC_1 + BASIC_2 + BASIC_3 + BASIC_4 + BASIC_5 + BASIC_6 + BASIC_7
  const EXTENSION: string := "\U{000C}^{}\\[~]|€"

  const MAX_SEGMENTS: nat := 10
  const MARKER: string := "[Librescoot SMS]"
  const OFF: string := "off"

  predicate Basic(c: char) { c in BASIC }
  predicate Extended(c: char) { c in EXTENSION }

  predicate IsGsm(text: string) {
    forall i :: 0 <= i < |text| ==> Basic(text[i]) || Extended(text[i])
  }

  /** Septets of the GSM-7 encoding: an extension-table character takes two. */
  function Septets(text: string): nat {
    if text == "" then 0
    else Septets(text[..|text| - 1]) + (if Basic(text[|text| - 1]) then 1 else if Extended(text[|text| - 1]) then 2 else 0)
  }

  /** UTF-16 code units. */
  function CodeUnits(text: string): nat {
    if text == "" then 0
    else CodeUnits(text[..|text| - 1]) + (if text[|text| - 1] as int >= 0x10000 then 2 else 1)
  }

  /** A message of `units` fits in `n` parts: one part holds `single` units, each of
      several holds `part`. */
  predicate Fits(units: nat, n: nat, single: nat, part: nat) {
    n >= 1 && (units <= single || units <= n * part)
  }

  /** By units alone, `n` is the fewest parts that hold the text, in GSM-7 if it can be, else
      in UCS-2. */
  ghost predicate FewestParts(text: string, n: nat) {
    if IsGsm(text)
    then Fits(Septets(text), n, 160, 153) && forall k :: 0 <= k < n ==> !Fits(Septets(text), k, 160, 153)
    else Fits(CodeUnits(text), n, 70, 67) && forall k :: 0 <= k < n ==> !Fits(CodeUnits(text), k, 70, 67)
  }

  function Parts(units: nat, single: nat, part: nat): (n: nat)
    requires 0 < part <= single
    ensures Fits(units, n, single, part)
    ensures forall k :: 0 <= k < n ==> !Fits(units, k, single, part)
  {
    var n := if units <= single then 1 else (units + part - 1) / part;
    assert units > single ==> (n - 1) * part < units <= n * part by { CeilingBounds(units, part); }
    assert forall k :: 1 <= k < n ==> k * part <= (n - 1) * part by { TimesMonotone(part); }
    n
  }

  lemma CeilingBounds(u: nat, p: nat)
    requires p > 0
    ensures var n := (u + p - 1) / p; (n - 1) * p < u <= n * p
  {
  }

  lemma TimesMonotone(p: nat)
    ensures forall a: int, b: int :: a <= b ==> a * p <= b * p
  {
  }

  function Segments(text: string): nat {
    if IsGsm(text) then Parts(Septets(text), 160, 153) else Parts(CodeUnits(text), 70, 67)
  }

  lemma SegmentsAreFewest(text: string)
    ensures FewestParts(text, Segments(text)) && Segments(text) >= 1
  {
  }

  lemma {:induction false} UnitsBound(text: string)
    ensures Septets(text) <= 2 * |text| && CodeUnits(text) <= 2 * |text|
  {
    if text != "" {
      UnitsBound(text[..|text| - 1]);
    }
  }

  /** 335 characters always fit ten segments, whatever they are. */
  lemma ShortTextFits(text: string)
    requires |text| <= 335
    ensures Segments(text) <= MAX_SEGMENTS
  {
    UnitsBound(text);
    assert Fits(Septets(text), 10, 160, 153) && Fits(CodeUnits(text), 10, 70, 67);
  }

  /** The counting loop. */
  method CountSegments(text: string) returns (n: nat)
    ensures FewestParts(text, n) && n == Segments(text)
  {
    hide Basic, Extended;
    var units, gsm := 0, true;
    for i := 0 to |text|
      invariant units == Septets(text[..i])
      invariant gsm <==> IsGsm(text[..i])
    {
      assert text[..i + 1][..i] == text[..i];
      if Basic(text[i]) {
        units := units + 1;
      } else if Extended(text[i]) {
        units := units + 2;
      } else {
        gsm := false;
        assert !(Basic(text[..i + 1][i]) || Extended(text[..i + 1][i]));
      }
    }
    assert text[..|text|] == text;
    if gsm {
      if units <= 160 {
        n := 1;
      } else {
        n := (units + 152) / 153;
      }
    } else {
      units := 0;
      for i := 0 to |text|
        invariant units == CodeUnits(text[..i])
      {
        assert text[..i + 1][..i] == text[..i];
        units := units + if text[i] as int >= 0x10000 then 2 else 1;
      }
      if units <= 70 {
        n := 1;
      } else {
        n := (units + 66) / 67;
      }
    }
    SegmentsAreFewest(text);
  }

  // ----- admission to forwarding -----

  predicate OccursAt(text: string, sub: string, i: nat) {
    i + |sub| <= |text| && text[i..i + |sub|] == sub
  }

  predicate Contains(text: string, sub: string) {
    exists i: nat | i <= |text| :: OccursAt(text, sub, i)
  }

  predicate Digit(c: char) { '0' <= c <= '9' }

  /** A plus sign, a non-zero digit and seven to fourteen more digits. */
  predicate E164(s: string) {
    && 9 <= |s| <= 16 && s[0] == '+' && '1' <= s[1] <= '9'
    && forall i :: 2 <= i < |s| ==> Digit(s[i])
  }

  /** `dialable` stands for the phone-number library: a valid mobile or landline number. */
  predicate ValidDestination(value: string, dialable: string -> bool) {
    value == OFF || (E164(value) && dialable(value))
  }

  function Body(m: Message): string {
    MARKER + " From: " + m.number + "\n" + m.stamp + "\n" + m.text
  }

  predicate Admissible(m: Message, destination: string, dialable: string -> bool) {
    && ValidDestination(destination, dialable) && destination != OFF
    && m.number != destination && !Contains(m.text, MARKER)
    && Segments(Body(m)) <= MAX_SEGMENTS
  }

  /** The body to forward and its size in segments, if the message may be forwarded. */
  function ForwardText(m: Message, destination: string, dialable: string -> bool): (r: Option<(string, nat)>)
    ensures r.Some? <==> Admissible(m, destination, dialable)
    ensures r.Some? ==> r.value == (Body(m), Segments(Body(m)))
  {
    if !ValidDestination(destination, dialable) || destination == OFF || m.number == destination || Contains(m.text, MARKER)
    then None
    else
      var body := Body(m);
      if Segments(body) > MAX_SEGMENTS then None else Some((body, Segments(body)))
  }

  lemma BodyIsMarked(m: Message)
    ensures Contains(Body(m), MARKER)
  {
    assert OccursAt(Body(m), MARKER, 0);
  }

  lemma ContainsIsTransitive(text: string, mid: string, sub: string)
    requires Contains(text, mid) && Contains(mid, sub)
    ensures Contains(text, sub)
  {
    var i: nat :| i <= |text| && OccursAt(text, mid, i);
    var j: nat :| j <= |mid| && OccursAt(mid, sub, j);
    forall k | 0 <= k < |sub| ensures text[i + j + k] == sub[k] {
      assert text[i..i + |mid|][j + k] == mid[j + k] && mid[j..j + |sub|][k] == sub[k];
    }
    assert OccursAt(text, sub, i + j);
  }

  /** No forwarding loop: a message that quotes a forwarded body, in whole or within
      more text, is never forwarded, to any destination. */
  lemma ForwardedBodyIsNotForwarded(m: Message, again: Message, destination: string, dialable: string -> bool)
    requires Contains(again.text, Body(m))
    ensures ForwardText(again, destination, dialable).None?
  {
    BodyIsMarked(m);
    ContainsIsTransitive(again.text, Body(m), MARKER);
  }
}
