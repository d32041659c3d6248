/** What the segment count leaves out: a character of two units cannot be cut in half. The
    count divides units by the capacity of a part; here parts are cut between characters. */
module SmsParts {
  import opened Wrappers
  import opened SmsText

  /** The units of each character: septets if the text fits GSM-7, else UTF-16 units. */
  function Weight(c: char, gsm: bool): nat {
    if gsm then if Basic(c) then 1 else 2 else if c as int >= 0x10000 then 2 else 1
  }

  function Weights(text: string, gsm: bool): (w: seq<nat>)
    ensures |w| == |text| && forall i :: 0 <= i < |w| ==> 1 <= w[i] <= 2
  {
    seq(|text|, (i: nat) requires i < |text| => Weight(text[i], gsm))
  }

  function Sum(w: seq<nat>): nat {
    if w == [] then 0 else Sum(w[..|w| - 1]) + w[|w| - 1]
  }

  /** The characters can be cut into `n` consecutive parts of at most `cap` units each. */
  ghost predicate SplitsInto(w: seq<nat>, n: nat, cap: nat) {
    if n == 0 then w == []
    else exists k :: 0 <= k <= |w| && FirstPart(w, k, cap) && SplitsInto(w[k..], n - 1, cap)
  }

  predicate FirstPart(w: seq<nat>, k: nat, cap: nat)
    requires k <= |w|
  {
    Sum(w[..k]) <= cap
  }

  /** A text can be sent in `n` messages: whole in one, or cut into parts. */
  ghost predicate GoesIn(text: string, n: nat) {
    var w, single, part := Weights(text, IsGsm(text)), if IsGsm(text) then 160 else 70, if IsGsm(text) then 153 else 67;
    n >= 1 && (Sum(w) <= single || SplitsInto(w, n, part))
  }

  lemma {:induction false} SumConcat(a: seq<nat>, b: seq<nat>)
    ensures Sum(a + b) == Sum(a) + Sum(b)
  {
    if b == [] {
      assert a + b == a;
    } else {
      assert (a + b)[..|a + b| - 1] == a + b[..|b| - 1];
      SumConcat(a, b[..|b| - 1]);
    }
  }

  lemma SumSplit(w: seq<nat>, k: nat)
    requires k <= |w|
    ensures Sum(w) == Sum(w[..k]) + Sum(w[k..])
  {
    assert w == w[..k] + w[k..];
    SumConcat(w[..k], w[k..]);
  }

  /** No cutting beats the division: `n` parts hold at most `n` times the capacity. */
  lemma {:induction false} SplitsFit(w: seq<nat>, n: nat, cap: nat)
    requires SplitsInto(w, n, cap)
    ensures Sum(w) <= n * cap
    decreases n
  {
    if n > 0 {
      var k :| 0 <= k <= |w| && FirstPart(w, k, cap) && SplitsInto(w[k..], n - 1, cap);
      SplitsFit(w[k..], n - 1, cap);
      SumSplit(w, k);
    }
  }

  // ----- filling each part as far as it goes -----

  /** The most characters that fit a part. */
  function Filled(w: seq<nat>, cap: nat): (k: nat)
    ensures k <= |w| && FirstPart(w, k, cap)
  {
    if Sum(w) <= cap then
      assert w[..|w|] == w;
      |w|
    else
      var k := Filled(w[..|w| - 1], cap);
      assert w[..|w| - 1][..k] == w[..k];
      k
  }

  lemma {:induction false} FilledIsMost(w: seq<nat>, cap: nat, k: nat)
    requires k <= |w| && FirstPart(w, k, cap)
    ensures k <= Filled(w, cap)
  {
    assert w[..|w|] == w;
    if Sum(w) > cap && k < |w| {
      assert w[..|w| - 1][..k] == w[..k];
      FilledIsMost(w[..|w| - 1], cap, k);
    }
  }

  lemma FilledMoves(w: seq<nat>, cap: nat)
    requires w != [] && cap >= 2 && forall i :: 0 <= i < |w| ==> w[i] <= 2
    ensures Filled(w, cap) > 0
  {
    assert w[..1] == [w[0]] && [w[0]][..0] == [];
    assert Sum([w[0]]) == Sum([w[0]][..0]) + w[0];
    FilledIsMost(w, cap, 1);
  }

  /** How many parts that takes. */
  function PartsFilled(w: seq<nat>, cap: nat): nat
    requires cap >= 2 && forall i :: 0 <= i < |w| ==> w[i] <= 2
    decreases |w|
  {
    if w == [] then 0
    else
      FilledMoves(w, cap);
      1 + PartsFilled(w[Filled(w, cap)..], cap)
  }

  lemma {:induction false} DropSplits(w: seq<nat>, j: nat, n: nat, cap: nat)
    requires j <= |w| && SplitsInto(w, n, cap)
    ensures SplitsInto(w[j..], n, cap)
    decreases n
  {
    if n > 0 {
      var k :| 0 <= k <= |w| && FirstPart(w, k, cap) && SplitsInto(w[k..], n - 1, cap);
      if j <= k {
        assert w[..k] == w[..j] + w[j..][..k - j];
        SumConcat(w[..j], w[j..][..k - j]);
        assert FirstPart(w[j..], k - j, cap) && w[j..][k - j..] == w[k..];
      } else {
        DropSplits(w[k..], j - k, n - 1, cap);
        assert w[k..][j - k..] == w[j..];
        assert w[j..][..0] == [] && FirstPart(w[j..], 0, cap) && w[j..][0..] == w[j..];
      }
    }
  }

  lemma {:induction false} EmptySplits(n: nat, cap: nat)
    ensures SplitsInto([], n, cap)
  {
    if n > 0 {
      EmptySplits(n - 1, cap);
      var w: seq<nat> := [];
      assert w[..0] == [] && FirstPart(w, 0, cap) && w[0..] == [];
    }
  }

  lemma CutFirst(w: seq<nat>, n: nat, cap: nat, k: nat)
    requires k <= |w| && FirstPart(w, k, cap) && SplitsInto(w[k..], n, cap)
    ensures SplitsInto(w, n + 1, cap)
  {
  }

  /** Whatever the first cut, cutting as far as the part holds leaves no more to do. */
  lemma FilledIsBest(w: seq<nat>, n: nat, cap: nat)
    requires w != [] && n > 0 && SplitsInto(w, n, cap)
    ensures SplitsInto(w[Filled(w, cap)..], n - 1, cap)
  {
    var g := Filled(w, cap);
    var k :| 0 <= k <= |w| && FirstPart(w, k, cap) && SplitsInto(w[k..], n - 1, cap);
    FilledIsMost(w, cap, k);
    DropSplits(w[k..], g - k, n - 1, cap);
    assert w[k..][g - k..] == w[g..];
  }

  /** Filling is best: a text can be cut into `n` parts exactly if filling needs no more. */
  lemma {:induction false} SplitsIffFilled(w: seq<nat>, n: nat, cap: nat)
    requires cap >= 2 && forall i :: 0 <= i < |w| ==> w[i] <= 2
    ensures SplitsInto(w, n, cap) <==> PartsFilled(w, cap) <= n
    decreases n
  {
    if w == [] {
      EmptySplits(n, cap);
    } else if n > 0 {
      hide SplitsInto, Filled, Sum, FirstPart;
      FilledMoves(w, cap);
      SplitsIffFilled(w[Filled(w, cap)..], n - 1, cap);
      SplitsIffRestDoes(w, n, cap);
    }
  }

  lemma SplitsIffRestDoes(w: seq<nat>, n: nat, cap: nat)
    requires w != [] && n > 0
    ensures SplitsInto(w, n, cap) <==> SplitsInto(w[Filled(w, cap)..], n - 1, cap)
  {
    hide SplitsInto, Filled, Sum, FirstPart;
    if SplitsInto(w, n, cap) {
      FilledIsBest(w, n, cap);
    }
    if SplitsInto(w[Filled(w, cap)..], n - 1, cap) {
      CutFirst(w, n - 1, cap, Filled(w, cap));
    }
  }

  // ----- the count of the code -----

  lemma {:induction false} UnitsAreWeights(text: string)
    ensures IsGsm(text) ==> Sum(Weights(text, true)) == Septets(text)
    ensures Sum(Weights(text, false)) == CodeUnits(text)
  {
    hide Basic, Extended;
    if text != "" {
      var init := text[..|text| - 1];
      UnitsAreWeights(init);
      assert Weights(text, true)[..|init|] == Weights(init, true) && Weights(text, false)[..|init|] == Weights(init, false);
      assert IsGsm(text) ==> IsGsm(init) && (Basic(text[|init|]) || Extended(text[|init|]));
    }
  }

  /** The messages a text really takes. */
  function Fewest(text: string): nat {
    var w := Weights(text, IsGsm(text));
    if Sum(w) <= (if IsGsm(text) then 160 else 70) then 1 else PartsFilled(w, if IsGsm(text) then 153 else 67)
  }

  /** The code's count never exceeds what the text really takes, and is exact exactly if
      filling part after part takes no more than the division says. */
  lemma SegmentsAreFewestIff(text: string)
    ensures forall n: nat :: GoesIn(text, n) ==> n >= Segments(text)
    ensures GoesIn(text, Segments(text)) <==> Fewest(text) == Segments(text)
    ensures Fewest(text) >= Segments(text)
  {
    var gsm := IsGsm(text);
    var w, single, part := Weights(text, gsm), if gsm then 160 else 70, if gsm then 153 else 67;
    UnitsAreWeights(text);
    hide IsGsm, Septets, CodeUnits;
    forall n: nat | GoesIn(text, n) ensures n >= Segments(text) {
      if Sum(w) > single {
        SplitsFit(w, n, part);
      }
    }
    SplitsIffFilled(w, Segments(text), part);
    SplitsIffFilled(w, Fewest(text), part);
    if Sum(w) > single {
      SplitsFit(w, PartsFilled(w, part), part);
    }
  }

  // ----- a pair on the boundary -----

  /** Two parts by division need a third, if a pair lies across the boundary. */
  lemma PairOnBoundary(a: seq<nat>, b: seq<nat>)
    requires Sum(a) == 152 && Sum(b) == 152
    ensures Sum(a + [2] + b) == 2 * 153 && !SplitsInto(a + [2] + b, 2, 153)
  {
    var w := a + [2] + b;
    assert [2][..0] == [] && Sum([2]) == 2;
    SumConcat(a, [2]);
    SumConcat(a + [2], b);
    if SplitsInto(w, 2, 153) {
      var k: nat :| k <= |w| && FirstPart(w, k, 153) && SplitsInto(w[k..], 1, 153);
      SplitsFit(w[k..], 1, 153);
      hide Sum, SplitsInto;
      SumSplit(w, k);
      if k <= |a| {
        assert w[..k] == a[..k];
        SumSplit(a, k);
      } else {
        assert w[..k] == a + [2] + b[..k - |a| - 1];
        SumConcat(a + [2], b[..k - |a| - 1]);
      }
    }
  }

  /** All characters are of the basic alphabet. */
  predicate Plain(s: string) {
    forall i :: 0 <= i < |s| ==> Basic(s[i])
  }

  lemma {:induction false} PlainUnits(s: string)
    requires Plain(s)
    ensures Sum(Weights(s, true)) == |s|
  {
    hide Basic, Extended;
    if s != "" {
      var n := |s| - 1;
      assert Weights(s, true)[..n] == Weights(s[..n], true);
      PlainUnits(s[..n]);
    }
  }

  lemma JoinedUnits(a: string, b: string)
    ensures Sum(Weights(a + b, true)) == Sum(Weights(a, true)) + Sum(Weights(b, true))
    ensures Weights(a + b, true) == Weights(a, true) + Weights(b, true)
  {
    hide Basic, Extended;
    assert Weights(a + b, true) == Weights(a, true) + Weights(b, true);
    SumConcat(Weights(a, true), Weights(b, true));
  }

  lemma PairUnits(c: char)
    requires Extended(c) && !Basic(c)
    ensures Weights([c], true) == [2] && Sum(Weights([c], true)) == 2
  {
    assert [2][..0] == [];
  }

  lemma CapitalsArePlain(c: char)
    requires 'A' <= c <= 'Z'
    ensures Basic(c)
  {
    hide BASIC_0, BASIC_1, BASIC_2, BASIC_3, BASIC_6, BASIC_7;
    assert if c <= 'P' then BASIC_4[c as int - 'A' as int] == c else BASIC_5[c as int - 'Q' as int] == c;
    hide BASIC_4, BASIC_5;
  }

  lemma SmallLettersArePlain(c: char)
    requires 'a' <= c <= 'z'
    ensures Basic(c)
  {
    hide BASIC_0, BASIC_1, BASIC_2, BASIC_3, BASIC_4, BASIC_5;
    assert if c <= 'p' then BASIC_6[c as int - 'a' as int] == c else BASIC_7[c as int - 'q' as int] == c;
    hide BASIC_6, BASIC_7;
  }

  lemma SeparatorsArePlain()
    ensures Basic(' ') && Basic(':') && Basic('\n')
  {
    hide BASIC_2, BASIC_4, BASIC_5, BASIC_6, BASIC_7;
    assert BASIC_1[15] == ' ' && BASIC_3[9] == ':' && BASIC_0[10] == '\n';
    hide BASIC_0, BASIC_1, BASIC_3;
  }

  lemma LettersArePlain(s: string)
    requires forall i :: 0 <= i < |s| ==> s[i] == ' ' || s[i] == ':' || s[i] == '\n' || 'A' <= s[i] <= 'Z' || 'a' <= s[i] <= 'z'
    ensures Plain(s)
  {
    hide Basic;
    SeparatorsArePlain();
    forall i | 0 <= i < |s| ensures Basic(s[i]) {
      if 'A' <= s[i] <= 'Z' {
        CapitalsArePlain(s[i]);
      } else if 'a' <= s[i] <= 'z' {
        SmallLettersArePlain(s[i]);
      }
    }
  }

  lemma FiguresArePlain(c: char)
    requires '%' <= c <= '?' || c == '!' || c == '"' || c == '#'
    ensures Basic(c)
  {
    hide BASIC_0, BASIC_1, BASIC_4, BASIC_5, BASIC_6, BASIC_7;
    assert if c <= '0' then BASIC_2[c as int - '!' as int] == c else BASIC_3[c as int - '1' as int] == c;
    hide BASIC_2, BASIC_3;
  }

  lemma StraysArePlain()
    ensures Basic('@') && Basic('$') && Basic('_')
  {
    hide BASIC_2, BASIC_3, BASIC_4, BASIC_5, BASIC_6, BASIC_7;
    assert BASIC_0[0] == '@' && BASIC_0[2] == '$' && BASIC_1[1] == '_';
    hide BASIC_0, BASIC_1;
  }

  predicate Special(c: char) {
    c in "[]\\^{|}~€"
  }

  lemma SpecialNotInSymbols(c: char)
    requires Special(c) || c == '`'
    ensures c !in BASIC_0 && c !in BASIC_1
  {
    hide BASIC_2, BASIC_3, BASIC_4, BASIC_5, BASIC_6, BASIC_7;
  }

  lemma SpecialNotInFigures(c: char)
    requires Special(c) || c == '`'
    ensures c !in BASIC_2 && c !in BASIC_3
  {
    hide BASIC_0, BASIC_1, BASIC_4, BASIC_5, BASIC_6, BASIC_7;
  }

  lemma SpecialNotInCapitals(c: char)
    requires Special(c) || c == '`'
    ensures c !in BASIC_4 && c !in BASIC_5
  {
    hide BASIC_0, BASIC_1, BASIC_2, BASIC_3, BASIC_6, BASIC_7;
  }

  lemma SpecialNotInLetters(c: char)
    requires Special(c) || c == '`'
    ensures c !in BASIC_6 && c !in BASIC_7
  {
    hide BASIC_0, BASIC_1, BASIC_2, BASIC_3, BASIC_4, BASIC_5;
  }

  /** Of the printable ASCII characters all take one septet, but for eight that take two, as
      the Euro sign does, and the back quote, which makes a text UCS-2. */
  lemma SeptetsOf(c: char)
    requires ' ' <= c <= '~' || c == '€'
    ensures Basic(c) <==> c !in "[]\\^{|}~€`"
    ensures !Basic(c) ==> (Extended(c) <==> c != '`')
  {
    if Special(c) || c == '`' {
      SpecialNotInSymbols(c);
      SpecialNotInFigures(c);
      SpecialNotInCapitals(c);
      SpecialNotInLetters(c);
    } else if c == ' ' || c == ':' {
      SeparatorsArePlain();
    } else if 'A' <= c <= 'Z' {
      CapitalsArePlain(c);
    } else if 'a' <= c <= 'z' {
      SmallLettersArePlain(c);
    } else if c == '@' || c == '$' || c == '_' {
      StraysArePlain();
    } else {
      FiguresArePlain(c);
    }
    hide BASIC_0, BASIC_1, BASIC_2, BASIC_3, BASIC_4, BASIC_5, BASIC_6, BASIC_7, BASIC;
  }

  /** What comes before the text in the body to forward. */
  function Header(number: string, stamp: string): string {
    MARKER + " From: " + number + "\n" + stamp + "\n"
  }

  /** The marker's brackets are escaped. */
  lemma MarkerUnits()
    ensures IsGsm(MARKER) && Sum(Weights(MARKER, true)) == 18
  {
    var name := "Librescoot SMS";
    hide Basic, Extended, Sum, Weights;
    LettersArePlain(name);
    SeptetsOf('[');
    SeptetsOf(']');
    PairUnits('[');
    PairUnits(']');
    PlainUnits(name);
    JoinedUnits("[", name);
    JoinedUnits("[" + name, "]");
    assert "[" + name + "]" == MARKER;
  }

  /** The header takes 27 septets and its plain data. */
  lemma HeaderUnits(number: string, stamp: string)
    requires Plain(number) && Plain(stamp)
    ensures IsGsm(Header(number, stamp)) && Sum(Weights(Header(number, stamp), true)) == 27 + |number| + |stamp|
  {
    var rest := " From: " + number + "\n" + stamp + "\n";
    hide Basic, Extended, Sum, Weights, MARKER;
    MarkerUnits();
    PlainRest(number, stamp);
    PlainUnits(rest);
    JoinedUnits(MARKER, rest);
    assert Header(number, stamp) == MARKER + rest;
  }

  lemma PlainRest(number: string, stamp: string)
    requires Plain(number) && Plain(stamp)
    ensures Plain(" From: " + number + "\n" + stamp + "\n")
  {
    hide Basic;
    LettersArePlain(" From: ");
    LettersArePlain("\n");
  }

  function As(n: nat): string {
    seq(n, i => 'a')
  }

  /** A text whose Euro sign comes after `before` septets and has 152 after it. */
  function EuroText(before: nat): string {
    As(before) + "€" + As(152)
  }

  lemma AsArePlain(n: nat)
    ensures Plain(As(n))
  {
    LettersArePlain(As(n));
  }

  lemma EuroAfter(h: string, before: nat)
    requires IsGsm(h) && Sum(Weights(h, true)) + before == 152
    ensures IsGsm(h + EuroText(before))
    ensures Segments(h + EuroText(before)) == 2 && !GoesIn(h + EuroText(before), 2)
  {
    var t := h + EuroText(before);
    hide Basic, Extended, SplitsInto, Sum, Weights;
    assert t == h + As(before) + "€" + As(152);
    AsArePlain(before);
    AsArePlain(152);
    SeptetsOf('€');
    PairUnits('€');
    PlainUnits(As(before));
    PlainUnits(As(152));
    JoinedUnits(h, As(before));
    JoinedUnits(h + As(before), "€");
    JoinedUnits(h + As(before) + "€", As(152));
    PairOnBoundary(Weights(h + As(before), true), Weights(As(152), true));
    UnitsAreWeights(t);
  }

  lemma EuroTextIsUnmarked(before: nat)
    ensures !Contains(EuroText(before), MARKER)
  {
    var t := EuroText(before);
    forall i: nat | i <= |t| ensures !OccursAt(t, MARKER, i) {
      assert i + |MARKER| <= |t| ==> t[i..i + |MARKER|][0] == t[i] != MARKER[0];
    }
  }

  /** The failing case: whatever its sender and timestamp, there is a message that is
      forwarded and charged as two segments, though its body does not go in two. */
  lemma CountFallsShort(m: Message, destination: string, dialable: string -> bool)
    requires Plain(m.number) && Plain(m.stamp) && |m.number| + |m.stamp| <= 125
    requires m.text == EuroText(125 - |m.number| - |m.stamp|)
    ensures !GoesIn(Body(m), 2) && Segments(Body(m)) == 2
    ensures ValidDestination(destination, dialable) && destination != OFF && m.number != destination ==>
              ForwardText(m, destination, dialable) == Some((Body(m), 2))
  {
    hide Plain, EuroText, GoesIn, Segments, IsGsm, Sum, Weights, Contains;
    HeaderUnits(m.number, m.stamp);
    BodyIsHeaded(m);
    EuroAfter(Header(m.number, m.stamp), 125 - |m.number| - |m.stamp|);
    EuroTextIsUnmarked(125 - |m.number| - |m.stamp|);
    hide Header, Body;
  }

  lemma BodyIsHeaded(m: Message)
    ensures Body(m) == Header(m.number, m.stamp) + m.text
  {
  }
}
