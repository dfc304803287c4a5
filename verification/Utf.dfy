/** The conversions between UTF-16 and UTF-8 of the text input dialog, on buffers that end
    with a zero. */
module Utf {
  import Sequences

  // ----- buffers -----

  function Units(buffer: seq<bv16>): (s: seq<bv16>)
    ensures |s| <= |buffer| && s == buffer[..|s|] && 0 !in s
    ensures |s| < |buffer| ==> buffer[|s|] == 0
  {
    if buffer == [] || buffer[0] == 0 then [] else [buffer[0]] + Units(buffer[1..])
  }

  function Octets(buffer: seq<bv8>): (s: seq<bv8>)
    ensures |s| <= |buffer| && s == buffer[..|s|] && 0 !in s
    ensures |s| < |buffer| ==> buffer[|s|] == 0
  {
    if buffer == [] || buffer[0] == 0 then [] else [buffer[0]] + Octets(buffer[1..])
  }

  // ----- one unit -----

  predicate HighSurrogate(u: bv16) { u & 0xFC00 == 0xD800 }

  predicate LowSurrogate(u: bv16) { u & 0xFC00 == 0xDC00 }

  function One(u: bv16): bv8 { (u & 0xFF) as bv8 }

  // Octets that carry the low six bits of a number, and lead octets that carry its top.
  function Tail(u: bv16): bv8 { One(u & 0x3F) | 0x80 }

  function LeadOfTwo(u: bv16): bv8 { One(u >> 6) | 0xC0 }

  function LeadOfThree(u: bv16): bv8 { One((u >> 12) & 0xF) | 0xE0 }

  predicate Short(u: bv16) { u & 0xFF80 == 0 }

  predicate Medium(u: bv16) { u & 0xF800 == 0 }

  // The octets for a unit that is not the first of a pair.
  function Single(u: bv16): (r: seq<bv8>)
    ensures 1 <= |r| <= 3
  {
    if Short(u) then [One(u)]
    else if Medium(u) then [LeadOfTwo(u), Tail(u)]
    else [LeadOfThree(u), Tail(u >> 6), Tail(u)]
  }

  // What is written for a pair.
  function Pair(u: bv16, v: bv16): (r: seq<bv8>)
    ensures |r| == 4
  {
    [One(((u + 64) >> 8) & 0x3) | 0xF0,
     One(((u >> 2) + 16) & 0x3F) | 0x80,
     One((u >> 4) & 0x30) | 0x80 | One((v << 2) & 0xF),
     One(v & 0x3F) | 0x80]
  }

  predicate StartsPair(units: seq<bv16>) {
    |units| > 1 && !Short(units[0]) && !Medium(units[0]) && HighSurrogate(units[0]) && LowSurrogate(units[1])
  }

  function Encoded(units: seq<bv16>): seq<bv8> {
    if units == [] then []
    else if StartsPair(units) then Pair(units[0], units[1]) + Encoded(units[2..])
    else Single(units[0]) + Encoded(units[1..])
  }

  // How many octets the decoder takes at a lead octet.
  function Taken(lead: bv8): (n: nat)
    ensures 1 <= n <= 3
  {
    if lead & 0xE0 == 0xE0 then 3 else if lead & 0xC0 == 0xC0 then 2 else 1
  }

  // The numbers that one, two and three octets stand for.
  function Join1(a: bv8): bv16 { a as bv16 }

  function Join2(a: bv8, b: bv8): bv16 { ((a as bv16 & 0x1F) << 6) | (b as bv16 & 0x3F) }

  function Join3(a: bv8, b: bv8, c: bv8): bv16 {
    ((a as bv16 & 0x0F) << 12) | ((b as bv16 & 0x3F) << 6) | (c as bv16 & 0x3F)
  }

  function Unit(octets: seq<bv8>): bv16
    requires octets != [] && Taken(octets[0]) <= |octets|
  {
    if Taken(octets[0]) == 3 then Join3(octets[0], octets[1], octets[2])
    else if Taken(octets[0]) == 2 then Join2(octets[0], octets[1])
    else Join1(octets[0])
  }

  // No lead octet announces more than there is.
  predicate Complete(octets: seq<bv8>)
    decreases |octets|
  {
    octets == [] || (Taken(octets[0]) <= |octets| && Complete(octets[Taken(octets[0])..]))
  }

  function Decoded(octets: seq<bv8>): seq<bv16>
    requires Complete(octets)
    decreases |octets|
  {
    if octets == [] then [] else [Unit(octets)] + Decoded(octets[Taken(octets[0])..])
  }

  // ----- the encoding of section 3 of RFC 3629 -----

  // The octets have the form of their length's row of the table, the free bits make up
  // the number, and no shorter row would do.
  predicate IsEncoding(number: bv16, octets: seq<bv8>) {
    if |octets| == 1 then Row1(number, octets[0])
    else if |octets| == 2 then Row2(number, octets[0], octets[1])
    else if |octets| == 3 then Row3(number, octets[0], octets[1], octets[2])
    else false
  }

  predicate Row1(number: bv16, a: bv8) {
    a & 0x80 == 0 && number == a as bv16
  }

  predicate Row2(number: bv16, a: bv8, b: bv8) {
    a & 0xE0 == 0xC0 && b & 0xC0 == 0x80 && number == ((a as bv16 & 0x1F) << 6) | (b as bv16 & 0x3F) && number >= 0x80
  }

  predicate Row3(number: bv16, a: bv8, b: bv8, c: bv8) {
    && a & 0xF0 == 0xE0 && b & 0xC0 == 0x80 && c & 0xC0 == 0x80
    && number == ((a as bv16 & 0x0F) << 12) | ((b as bv16 & 0x3F) << 6) | (c as bv16 & 0x3F)
    && number >= 0x800
  }

  lemma {:induction false} ShortRow(u: bv16)
    requires Short(u)
    ensures Row1(u, One(u))
  {
  }

  lemma {:induction false} MediumRow(u: bv16)
    requires !Short(u) && Medium(u)
    ensures Row2(u, LeadOfTwo(u), Tail(u))
  {
  }

  lemma {:induction false} LongForms(u: bv16)
    ensures LeadOfThree(u) & 0xF0 == 0xE0 && Tail(u) & 0xC0 == 0x80
  {
  }

  lemma {:induction false} LongNumber(u: bv16)
    requires !Medium(u)
    ensures u >= 0x800
  {
  }

  lemma {:induction false} LongRow(u: bv16)
    requires !Medium(u)
    ensures Row3(u, LeadOfThree(u), Tail(u >> 6), Tail(u))
  {
    hide LeadOfThree, Tail, One, Medium, Taken;
    LongForms(u);
    LongForms(u >> 6);
    LongNumber(u);
    LongDecodes(u);
  }

  lemma {:induction false} OnlyRow1(u: bv16, a: bv8)
    requires Row1(u, a)
    ensures Short(u) && a == One(u)
  {
  }

  lemma {:induction false} OnlyRow2(u: bv16, a: bv8, b: bv8)
    requires Row2(u, a, b)
    ensures !Short(u) && Medium(u) && a == LeadOfTwo(u) && b == Tail(u)
  {
  }

  lemma {:induction false} OnlyRow3(u: bv16, a: bv8, b: bv8, c: bv8)
    requires Row3(u, a, b, c)
    ensures !Short(u) && !Medium(u) && a == LeadOfThree(u) && b == Tail(u >> 6) && c == Tail(u)
  {
  }

  lemma {:induction false} SingleEncodes(u: bv16)
    ensures IsEncoding(u, Single(u))
  {
    hide Row1, Row2, Row3, One, LeadOfTwo, LeadOfThree, Tail, Short, Medium;
    if Short(u) { ShortRow(u); } else if Medium(u) { MediumRow(u); } else { LongRow(u); }
  }

  lemma {:induction false} EncodingIsSingle(u: bv16, octets: seq<bv8>)
    requires IsEncoding(u, octets)
    ensures octets == Single(u)
  {
    hide Row1, Row2, Row3, One, LeadOfTwo, LeadOfThree, Tail, Short, Medium;
    if |octets| == 1 {
      OnlyRow1(u, octets[0]);
    } else if |octets| == 2 {
      OnlyRow2(u, octets[0], octets[1]);
    } else {
      OnlyRow3(u, octets[0], octets[1], octets[2]);
    }
  }

  // What is written for a unit is its encoding, and nothing else is.
  lemma {:induction false} SingleIsTheEncoding(u: bv16, octets: seq<bv8>)
    ensures IsEncoding(u, octets) <==> octets == Single(u)
  {
    hide IsEncoding, Single;
    SingleEncodes(u);
    if IsEncoding(u, octets) { EncodingIsSingle(u, octets); }
  }

  // ----- pairs of surrogates -----

  // The number that a pair stands for, by section 2.1 of RFC 2781.
  function PairNumber(u: bv16, v: bv16): bv32 {
    (((u as bv32) & 0x3FF) << 10) + ((v as bv32) & 0x3FF) + 0x1_0000
  }

  // The row of four octets.
  predicate Row4(number: bv32, a: bv8, b: bv8, c: bv8, d: bv8) {
    && a & 0xF8 == 0xF0 && b & 0xC0 == 0x80 && c & 0xC0 == 0x80 && d & 0xC0 == 0x80
    && number == (((a as bv32) & 0x7) << 18) | (((b as bv32) & 0x3F) << 12)
                 | (((c as bv32) & 0x3F) << 6) | ((d as bv32) & 0x3F)
    && 0x1_0000 <= number <= 0x10_FFFF
  }

  // What is written for a pair is its encoding if and only if the number is below 0x100000, the
  // low two bits of the first unit are its bits 8 and 9, and the low two bits of the second one
  // are bits 8 and 9 of it, with bits 6 and 7 zero.
  lemma {:induction false} PairIsEncodingIff(u: bv16, v: bv16)
    requires HighSurrogate(u) && LowSurrogate(v)
    ensures var p := Pair(u, v);
            Row4(PairNumber(u, v), p[0], p[1], p[2], p[3]) <==>
            u < 0xDBC0 && (u >> 8) & 0x3 == u & 0x3 && (v & 0x3) << 2 == (v >> 6) & 0xF
  {
  }

  // The face U+1F600 is written as the tile U+1F000.
  lemma {:induction false} FaceIsWrittenAsTile()
    ensures HighSurrogate(0xD83D) && LowSurrogate(0xDE00) && PairNumber(0xD83D, 0xDE00) == 0x1_F600
    ensures Encoded([0xD83D, 0xDE00]) == [0xF0, 0x9F, 0x80, 0x80] && Row4(0x1_F000, 0xF0, 0x9F, 0x80, 0x80)
  {
    assert Encoded([0xD83D, 0xDE00][2..]) == [];
    assert Pair(0xD83D, 0xDE00) == [0xF0, 0x9F, 0x80, 0x80];
  }

  // ----- round trip -----

  predicate HasPair(units: seq<bv16>) {
    exists i | 0 <= i < |units| - 1 :: HighSurrogate(units[i]) && LowSurrogate(units[i + 1])
  }

  lemma {:induction false} ShortDecodes(u: bv16)
    requires Short(u) && u != 0
    ensures Taken(One(u)) == 1 && Join1(One(u)) == u && One(u) != 0
  {
  }

  lemma {:induction false} MediumDecodes(u: bv16)
    requires Medium(u)
    ensures Taken(LeadOfTwo(u)) == 2 && Join2(LeadOfTwo(u), Tail(u)) == u
  {
  }

  lemma {:induction false} LongDecodes(u: bv16)
    ensures Taken(LeadOfThree(u)) == 3 && Join3(LeadOfThree(u), Tail(u >> 6), Tail(u)) == u
  {
  }

  lemma {:induction false} NoZeroOctets(u: bv16)
    ensures LeadOfTwo(u) != 0 && LeadOfThree(u) != 0 && Tail(u) != 0
  {
  }

  lemma {:induction false} SingleDecodes(u: bv16, rest: seq<bv8>)
    requires u != 0
    ensures var all := Single(u) + rest;
            Taken(all[0]) == |Single(u)| && Unit(all) == u && all[Taken(all[0])..] == rest
  {
    hide Taken, One, LeadOfTwo, LeadOfThree, Tail, Short, Medium, Join1, Join2, Join3;
    if Short(u) { ShortDecodes(u); } else if Medium(u) { MediumDecodes(u); } else { LongDecodes(u); }
    assert (Single(u) + rest)[|Single(u)|..] == rest;
  }

  lemma {:induction false} SingleHasNoZero(u: bv16)
    requires u != 0
    ensures 0 !in Single(u)
  {
    hide Taken, One, LeadOfTwo, LeadOfThree, Tail, Short, Medium, Join1;
    NoZeroOctets(u);
    NoZeroOctets(u >> 6);
    if Short(u) { ShortDecodes(u); }
  }

  // The decoder takes a pair's octets as two units, the first of which is no surrogate.
  lemma {:induction false} PairDecodes(u: bv16, v: bv16, rest: seq<bv8>)
    requires HighSurrogate(u) && LowSurrogate(v)
    ensures var all := Pair(u, v) + rest;
            && Taken(all[0]) == 3 && Unit(all) != u
            && all[3..] == [Pair(u, v)[3]] + rest && Taken(all[3]) == 1 && all[4..] == rest
    ensures 0 !in Pair(u, v)
  {
  }

  lemma {:induction false} PairsFrom(units: seq<bv16>)
    requires units != []
    ensures HasPair(units) <==> StartsPair(units) || HasPair(units[1..])
  {
    if HasPair(units) {
      var i :| 0 <= i < |units| - 1 && HighSurrogate(units[i]) && LowSurrogate(units[i + 1]);
      if i > 0 { assert units[1..][i - 1] == units[i] && units[1..][i] == units[i + 1]; }
    }
    if HasPair(units[1..]) {
      var i :| 0 <= i < |units[1..]| - 1 && HighSurrogate(units[1..][i]) && LowSurrogate(units[1..][i + 1]);
      assert units[i + 1] == units[1..][i] && units[i + 2] == units[1..][i + 1];
    }
  }

  // Encoding never leaves an incomplete sequence or a zero, and decoding gives the units
  // back exactly when they hold no surrogate pair.
  lemma {:induction false} RoundTrip(units: seq<bv16>)
    requires 0 !in units
    ensures Complete(Encoded(units)) && 0 !in Encoded(units)
    ensures Decoded(Encoded(units)) == units <==> !HasPair(units)
  {
    if units != [] {
      PairsFrom(units);
      if StartsPair(units) {
        RoundTrip(units[2..]);
        PairRoundTrip(units[0], units[1], Encoded(units[2..]));
      } else {
        RoundTrip(units[1..]);
        SingleRoundTrip(units[0], Encoded(units[1..]));
        assert units == [units[0]] + units[1..];
      }
    }
  }

  lemma {:induction false} SingleRoundTrip(u: bv16, rest: seq<bv8>)
    requires u != 0 && Complete(rest) && 0 !in rest
    ensures Complete(Single(u) + rest) && 0 !in Single(u) + rest
    ensures Decoded(Single(u) + rest) == [u] + Decoded(rest)
  {
    hide Single, Unit, Taken;
    SingleDecodes(u, rest);
    SingleHasNoZero(u);
  }

  lemma {:induction false} PairRoundTrip(u: bv16, v: bv16, rest: seq<bv8>)
    requires HighSurrogate(u) && LowSurrogate(v) && Complete(rest) && 0 !in rest
    ensures Complete(Pair(u, v) + rest) && 0 !in Pair(u, v) + rest
    ensures Decoded(Pair(u, v) + rest)[0] != u
  {
    hide Pair, Unit, Taken;
    PairDecodes(u, v, rest);
    var all := Pair(u, v) + rest;
    assert all[3..][1..] == rest;
    assert Complete(all[3..]);
  }

  // The octets of units without surrogates are one encoding of RFC 3629 after another.
  lemma {:induction false} EncodedIsConcatenation(units: seq<bv16>)
    requires forall i | 0 <= i < |units| :: !HighSurrogate(units[i])
    ensures Encoded(units) == Concatenated(units)
  {
    hide Single, Pair;
    if units != [] { EncodedIsConcatenation(units[1..]); }
  }

  function Concatenated(units: seq<bv16>): seq<bv8> {
    if units == [] then [] else Single(units[0]) + Concatenated(units[1..])
  }

  // ----- the loops -----

  lemma {:induction false} EncodedStep(units: seq<bv16>, i: nat)
    requires i < |units|
    ensures var rest := units[i..];
            Encoded(rest) ==
            if StartsPair(rest) then Pair(units[i], units[i + 1]) + Encoded(units[i + 2..])
            else Single(units[i]) + Encoded(units[i + 1..])
  {
    hide Pair, Single, HighSurrogate, LowSurrogate, Short, Medium;
    var rest := units[i..];
    assert rest[1..] == units[i + 1..];
    if StartsPair(rest) { assert rest[2..] == units[i + 2..]; }
  }

  lemma {:induction false} UnitsAt(buffer: seq<bv16>, i: nat)
    requires |Units(buffer)| < |buffer| && i <= |Units(buffer)|
    ensures buffer[i] == 0 <==> i == |Units(buffer)|
    ensures i < |Units(buffer)| ==> Units(buffer)[i] == buffer[i]
  {
    var units := Units(buffer);
    if i < |units| { assert units[i] in units; }
  }

  lemma {:induction false} OctetsAt(buffer: seq<bv8>, i: nat)
    requires |Octets(buffer)| < |buffer| && i <= |Octets(buffer)|
    ensures buffer[i] == 0 <==> i == |Octets(buffer)|
    ensures i < |Octets(buffer)| ==> Octets(buffer)[i] == buffer[i]
  {
    var octets := Octets(buffer);
    if i < |octets| { assert octets[i] in octets; }
  }

  lemma {:induction false} UnitsAre(buffer: seq<bv16>, n: nat)
    requires n < |buffer| && buffer[n] == 0 && 0 !in buffer[..n]
    ensures Units(buffer) == buffer[..n]
  {
    if n > 0 {
      assert buffer[0] == buffer[..n][0] && buffer[1..][..n - 1] == buffer[..n][1..];
      UnitsAre(buffer[1..], n - 1);
    }
  }

  lemma {:induction false} OctetsAre(buffer: seq<bv8>, n: nat)
    requires n < |buffer| && buffer[n] == 0 && 0 !in buffer[..n]
    ensures Octets(buffer) == buffer[..n]
  {
    if n > 0 {
      assert buffer[0] == buffer[..n][0] && buffer[1..][..n - 1] == buffer[..n][1..];
      OctetsAre(buffer[1..], n - 1);
    }
  }

  // Writes octets one after another.
  method Put(dst: array<bv8>, at: nat, octets: seq<bv8>) returns (next: nat)
    requires at + |octets| <= dst.Length
    modifies dst
    ensures next == at + |octets| && dst[..next] == old(dst[..at]) + octets
  {
    forall k | 0 <= k < |octets| {
      dst[at + k] := octets[k];
    }
    next := at + |octets|;
  }

  // The octets written so far are the encoding of the units read so far.
  ghost predicate Progress(written: seq<bv8>, units: seq<bv16>, i: nat)
    requires i <= |units|
  {
    written + Encoded(units[i..]) == Encoded(units)
  }

  lemma {:induction false} ProgressStep(written: seq<bv8>, units: seq<bv16>, i: nat)
    requires i < |units| && Progress(written, units, i)
    ensures var rest := units[i..];
            if StartsPair(rest) then Progress(written + Pair(units[i], units[i + 1]), units, i + 2)
            else Progress(written + Single(units[i]), units, i + 1)
  {
    hide Pair, Single, Encoded, StartsPair;
    EncodedStep(units, i);
    if StartsPair(units[i..]) {
      PairHasTwo(units[i..]);
      Sequences.Regroup(written, Pair(units[i], units[i + 1]), Encoded(units[i + 2..]));
    } else {
      Sequences.Regroup(written, Single(units[i]), Encoded(units[i + 1..]));
    }
  }

  lemma {:induction false} PairHasTwo(units: seq<bv16>)
    requires StartsPair(units)
    ensures |units| > 1
  {
  }

  lemma {:induction false} ProgressEnds(written: seq<bv8>, units: seq<bv16>)
    requires Progress(written, units, |units|)
    ensures written == Encoded(units)
  {
  }

  lemma {:induction false} ProgressLength(written: seq<bv8>, units: seq<bv16>, i: nat)
    requires i <= |units| && Progress(written, units, i)
    ensures |written| <= |Encoded(units)|
  {
    hide Encoded;
  }

  // utf16_to_utf8
  method Utf16ToUtf8(src: array<bv16>, dst: array<bv8>)
    requires |Units(src[..])| < src.Length && |Encoded(Units(src[..]))| < dst.Length
    modifies dst
    ensures Octets(dst[..]) == Encoded(Units(src[..]))
  {
    hide Pair, Single, Octets, Encoded, One, Progress, Units;
    ghost var units := Units(src[..]);
    ghost var limit := |Encoded(units)|;
    var i, n := 0, 0;
    ProgressStarts(units);
    UnitsAt(src[..], 0);
    while src[i] != 0
      invariant i <= |units| && 0 <= n <= limit < dst.Length && Progress(dst[..n], units, i)
      invariant src[i] == 0 <==> i == |units|
      decreases |units| - i
    {
      ghost var written := dst[..n];
      UnitsAt(src[..], i);
      UnitsAt(src[..], i + 1);
      ProgressStep(written, units, i);
      if !Short(src[i]) && !Medium(src[i]) && HighSurrogate(src[i]) && LowSurrogate(src[i + 1]) {
        NoZeroLow(src[i + 1]);
        ProgressLength(written + Pair(src[i], src[i + 1]), units, i + 2);
        n := Put(dst, n, Pair(src[i], src[i + 1]));
        i := i + 2;
      } else {
        ProgressLength(written + Single(src[i]), units, i + 1);
        n := Put(dst, n, Single(src[i]));
        i := i + 1;
      }
      UnitsAt(src[..], i);
    }
    ProgressEnds(dst[..n], units);
    RoundTrip(units);
    dst[n] := 0;
    OctetsAre(dst[..], n);
  }

  lemma {:induction false} ProgressStarts(units: seq<bv16>)
    ensures Progress([], units, 0)
  {
    hide Encoded;
    assert units[0..] == units;
  }

  lemma {:induction false} NoZeroLow(u: bv16)
    requires LowSurrogate(u)
    ensures u != 0
  {
  }

  lemma {:induction false} CompleteAt(octets: seq<bv8>, i: nat)
    requires i <= |octets| && Complete(octets[i..])
    ensures i < |octets| ==>
              && i + Taken(octets[i]) <= |octets| && Complete(octets[i + Taken(octets[i])..])
              && Decoded(octets[i..]) == [Unit(octets[i..])] + Decoded(octets[i + Taken(octets[i])..])
    ensures i == |octets| ==> Decoded(octets[i..]) == []
  {
    hide Unit, Taken;
    if i < |octets| { assert octets[i..][Taken(octets[i])..] == octets[i + Taken(octets[i])..]; }
  }

  // The units written so far are those that the octets read so far stand for.
  ghost predicate Reading(written: seq<bv16>, octets: seq<bv8>, i: nat)
    requires Complete(octets)
  {
    i <= |octets| && Complete(octets[i..]) && written + Decoded(octets[i..]) == Decoded(octets)
  }

  lemma {:induction false} ReadingStep(written: seq<bv16>, octets: seq<bv8>, i: nat)
    requires Complete(octets) && Reading(written, octets, i) && i < |octets|
    ensures i + Taken(octets[i]) <= |octets|
    ensures Reading(written + [Unit(octets[i..])], octets, i + Taken(octets[i]))
    ensures |written| < |Decoded(octets)|
  {
    CompleteAt(octets, i);
    hide Complete, Decoded, Unit, Taken;
    Sequences.Regroup(written, [Unit(octets[i..])], Decoded(octets[i + Taken(octets[i])..]));
  }

  lemma {:induction false} ReadingStarts(octets: seq<bv8>)
    requires Complete(octets)
    ensures Reading([], octets, 0)
  {
    hide Decoded;
    assert octets[0..] == octets;
  }

  lemma {:induction false} ReadingEnds(written: seq<bv16>, octets: seq<bv8>)
    requires Complete(octets) && Reading(written, octets, |octets|)
    ensures written == Decoded(octets)
  {
  }

  // One pass of the loop: the unit that starts at a position.
  method NextUnit(src: array<bv8>, i: nat, ghost octets: seq<bv8>) returns (unit: bv16, taken: nat)
    requires octets == Octets(src[..]) && |octets| < src.Length
    requires i < |octets| && i + Taken(octets[i]) <= |octets|
    ensures unit == Unit(octets[i..]) && taken == Taken(octets[i])
  {
    hide Taken, Join1, Join2, Join3, Octets;
    OctetsAt(src[..], i);
    taken := Taken(src[i]);
    if taken == 3 {
      OctetsAt(src[..], i + 1);
      OctetsAt(src[..], i + 2);
      unit := Join3(src[i], src[i + 1], src[i + 2]);
    } else if taken == 2 {
      OctetsAt(src[..], i + 1);
      unit := Join2(src[i], src[i + 1]);
    } else {
      unit := Join1(src[i]);
    }
  }

  // utf8_to_utf16. A lead octet makes the loop read what it announces, so the input has to
  // be complete. An overlong zero such as C0 80 becomes a unit 0 inside the text.
  method Utf8ToUtf16(src: array<bv8>, dst: array<bv16>)
    requires |Octets(src[..])| < src.Length && Complete(Octets(src[..]))
    requires |Decoded(Octets(src[..]))| < dst.Length
    modifies dst
    ensures var units := Decoded(Octets(src[..]));
            && dst[..|units| + 1] == units + [0]
            && (0 !in units ==> Units(dst[..]) == units)
  {
    hide Taken, Unit, Units, Octets, Decoded, Complete;
    ghost var octets := Octets(src[..]);
    ghost var limit := |Decoded(octets)|;
    var i, n := 0, 0;
    ReadingStarts(octets);
    OctetsAt(src[..], 0);
    while src[i] != 0
      invariant i <= |octets| && n <= limit < dst.Length && Reading(dst[..n], octets, i)
      invariant src[i] == 0 <==> i == |octets|
      decreases |octets| - i
    {
      ghost var written := dst[..n];
      ReadingStep(written, octets, i);
      var unit, taken := NextUnit(src, i, octets);
      dst[n] := unit;
      n, i := n + 1, i + taken;
      assert dst[..n] == written + [unit];
      OctetsAt(src[..], i);
    }
    ReadingEnds(dst[..n], octets);
    dst[n] := 0;
    if 0 !in Decoded(octets) { UnitsAre(dst[..], n); }
  }
}
