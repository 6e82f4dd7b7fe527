/** A mitered laminate design: the design parameters, the cut plan parsed from a command, and
    the geometry derived from them (cut widths, cut lengths, numbers of cuts, and the panel
    height of every generation). Failed computations return the sentinel -1. */
module Laminate {
  import opened MathLib
  import opened PyText
  import opened CutCommand

  /** `[2 * math.sin(a) for a in angles]`: the list `getSinAnglesMultiplier` multiplies out. */
  function DoubledSines(trig: Trig, angles: seq<real>): (terms: seq<real>)
    ensures |terms| == |angles|
  {
    seq(|angles|, i requires 0 <= i < |angles| => 2.0 * trig.sin(angles[i]))
  }

  /** Appending an angle appends its doubled sine. */
  lemma DoubledSinesAppend(trig: Trig, angles: seq<real>, a: real)
    ensures DoubledSines(trig, angles + [a]) == DoubledSines(trig, angles) + [2.0 * trig.sin(a)]
  {
  }

  /** The part of a laminate its geometry depends on: sine and cosine, the design-unit width,
      the kerf and the cut angle of every generation. */
  datatype Geometry = Geometry(trig: Trig, widthRdu: real, widthKerf: real, angles: seq<real>)
  {
    /** The trigonometric facts hold and every angle of the plan is acute. */
    ghost predicate AnglesValid()
    {
      trig.Sound() && forall i :: 0 <= i < |angles| ==> 0.0 < angles[i] < RightAngle
    }

    /** `getSinAnglesMultiplier(indexBegin, indexEnd)`: 2 sin(a) multiplied over the angles with
        index from `indexBegin` to `indexEnd` inclusive, or the sentinel when that range is not a
        non-empty range of indices of the plan. The product is taken from the left, as `reduce`
        folds the list, by peeling off the last factor. */
    function SinAnglesMultiplier(indexBegin: int, indexEnd: int): real
      decreases indexEnd - indexBegin
    {
      if indexBegin >= 0 && indexEnd >= 0 && indexBegin <= indexEnd && indexEnd < |angles| then
        var factor := 2.0 * trig.sin(angles[indexEnd]);
        if indexBegin == indexEnd then factor else SinAnglesMultiplier(indexBegin, indexEnd - 1) * factor
      else Sentinel
    }

    /** Outside a non-empty range of indices of the plan the multiplier is the sentinel, whatever the angles. */
    lemma SinAnglesMultiplierOutOfRange(indexBegin: int, indexEnd: int)
      requires !(0 <= indexBegin <= indexEnd < |angles|)
      ensures SinAnglesMultiplier(indexBegin, indexEnd) == Sentinel
    {
    }

    /** The multiplier is `reduce` of multiplication over the list of 2 sin(a) for the slice of angles. */
    lemma {:induction false} SinAnglesMultiplierIsReduce(indexBegin: int, indexEnd: int)
      requires 0 <= indexBegin <= indexEnd < |angles|
      ensures SinAnglesMultiplier(indexBegin, indexEnd) == Product(DoubledSines(trig, angles[indexBegin..indexEnd + 1]))
      decreases indexEnd - indexBegin
    {
      var last := angles[indexEnd];
      if indexBegin == indexEnd {
        assert angles[indexBegin..indexEnd + 1] == [last];
      } else {
        SinAnglesMultiplierIsReduce(indexBegin, indexEnd - 1);
        var s := angles[indexBegin..indexEnd];
        assert angles[indexBegin..indexEnd + 1] == s + [last];
        DoubledSinesAppend(trig, s, last);
        ProductAppend(DoubledSines(trig, s), 2.0 * trig.sin(last));
      }
    }

    /** On a plan of acute angles the multiplier is positive exactly on valid index ranges and is
        the sentinel everywhere else. */
    lemma {:induction false} SinAnglesMultiplierSign(indexBegin: int, indexEnd: int)
      requires AnglesValid()
      ensures SinAnglesMultiplier(indexBegin, indexEnd) > 0.0 <==> 0 <= indexBegin <= indexEnd < |angles|
      ensures SinAnglesMultiplier(indexBegin, indexEnd) == Sentinel <==> !(0 <= indexBegin <= indexEnd < |angles|)
      decreases indexEnd - indexBegin
    {
      if 0 <= indexBegin <= indexEnd < |angles| {
        assert trig.sin(angles[indexEnd]) > 0.0;
        if indexBegin < indexEnd {
          SinAnglesMultiplierSign(indexBegin, indexEnd - 1);
        }
      }
    }

    /** The multiplier of a range is the product of the multipliers of any two adjacent parts of it. */
    lemma {:induction false} SinAnglesMultiplierSplit(indexBegin: int, middle: int, indexEnd: int)
      requires 0 <= indexBegin <= middle < indexEnd < |angles|
      ensures SinAnglesMultiplier(indexBegin, indexEnd)
           == SinAnglesMultiplier(indexBegin, middle) * SinAnglesMultiplier(middle + 1, indexEnd)
      decreases indexEnd
    {
      if indexEnd > middle + 1 {
        SinAnglesMultiplierSplit(indexBegin, middle, indexEnd - 1);
        var left, right := SinAnglesMultiplier(indexBegin, middle), SinAnglesMultiplier(middle + 1, indexEnd - 1);
        var factor := 2.0 * trig.sin(angles[indexEnd]);
        assert SinAnglesMultiplier(indexBegin, indexEnd) == (left * right) * factor;
        assert SinAnglesMultiplier(middle + 1, indexEnd) == right * factor;
        MulAssoc(left, right, factor);
      }
    }

    /** The terms `kerfMultiplier` appends after its leading 1:
        SinAnglesMultiplier(k, maxindex) for k from `index` down to 2. */
    function KerfTerms(index: int, maxindex: int): seq<real>
      decreases index
    {
      if index < 2 then [] else [SinAnglesMultiplier(index, maxindex)] + KerfTerms(index - 1, maxindex)
    }

    /** The terms are exactly SinAnglesMultiplier(k, maxindex) for k = index, index - 1, ..., 2, in that order. */
    lemma {:induction false} KerfTermsContents(index: int, maxindex: int)
      ensures |KerfTerms(index, maxindex)| == if index < 2 then 0 else index - 1
      ensures forall k :: 0 <= k < |KerfTerms(index, maxindex)| ==>
        KerfTerms(index, maxindex)[k] == SinAnglesMultiplier(index - k, maxindex)
      decreases index
    {
      if index >= 2 {
        KerfTermsContents(index - 1, maxindex);
      }
    }

    /** `kerfMultiplier(generation)`: 1, plus SinAnglesMultiplier(k, generation - 1) for every k
        from generation - 1 down to 2. */
    function KerfMultiplier(generation: int): real
    {
      Sum([1.0] + (if generation > 2 then KerfTerms(generation - 1, generation - 1) else []))
    }

    /** The first two generations have no terms after the leading 1, for any angles and any generation up to 2. */
    lemma KerfMultiplierEarlyGenerations(generation: int)
      requires generation <= 2
      ensures KerfMultiplier(generation) == 1.0
    {
      SumPrepend(1.0, []);
    }

    /** Extending the range of every term by one generation scales their sum by that generation's factor. */
    lemma {:induction false} KerfTermsScale(index: int, generation: int)
      requires 1 <= index <= generation - 1
      requires generation < |angles|
      ensures Sum(KerfTerms(index, generation))
           == 2.0 * trig.sin(angles[generation]) * Sum(KerfTerms(index, generation - 1))
      decreases index
    {
      if index >= 2 {
        var factor := 2.0 * trig.sin(angles[generation]);
        KerfTermsScale(index - 1, generation);
        var head := SinAnglesMultiplier(index, generation - 1);
        var rest := Sum(KerfTerms(index - 1, generation - 1));
        SumPrepend(head * factor, KerfTerms(index - 1, generation));
        SumPrepend(head, KerfTerms(index - 1, generation - 1));
        assert SinAnglesMultiplier(index, generation) == head * factor;
        assert KerfTerms(index, generation) == [SinAnglesMultiplier(index, generation)] + KerfTerms(index - 1, generation);
        assert KerfTerms(index, generation) == [head * factor] + KerfTerms(index - 1, generation);
        calc {
          Sum(KerfTerms(index, generation));
          head * factor + Sum(KerfTerms(index - 1, generation));
          head * factor + factor * rest;
          factor * (head + rest);
          factor * Sum(KerfTerms(index, generation - 1));
        }
      }
    }

    /** Kerf loss compounds generation by generation: for 2 <= g < |angles|,
        kerfMultiplier(g + 1) == 1 + 2 sin(angles[g]) * kerfMultiplier(g). */
    lemma KerfMultiplierRecurrence(generation: int)
      requires 2 <= generation < |angles|
      ensures KerfMultiplier(generation + 1)
           == 1.0 + 2.0 * trig.sin(angles[generation]) * KerfMultiplier(generation)
    {
      var g := generation;
      var factor := 2.0 * trig.sin(angles[g]);
      assert SinAnglesMultiplier(g, g) == factor;
      KerfTermsScale(g - 1, g);
      var rest := Sum(KerfTerms(g - 1, g - 1));
      SumPrepend(factor, KerfTerms(g - 1, g));
      SumPrepend(1.0, KerfTerms(g, g));
      SumPrepend(1.0, KerfTerms(g - 1, g - 1));
      if g == 2 {
        assert KerfMultiplier(g) == Sum([1.0] + []);
      }
      calc {
        KerfMultiplier(g + 1);
        1.0 + (factor + factor * rest);
        1.0 + factor * (1.0 + rest);
        1.0 + factor * KerfMultiplier(g);
      }
    }

    /** Past the end of the plan every term is the sentinel. */
    lemma {:induction false} KerfTermsUnguarded(index: int, maxindex: int)
      requires 1 <= index
      requires maxindex >= |angles|
      ensures Sum(KerfTerms(index, maxindex)) == -(index - 1) as real
      decreases index
    {
      if index >= 2 {
        KerfTermsUnguarded(index - 1, maxindex);
        SumPrepend(Sentinel, KerfTerms(index - 1, maxindex));
      }
    }

    /** The sentinel is not guarded: past the end of the plan every term is -1, so
        kerfMultiplier(g) == 1 - (g - 2). */
    lemma KerfMultiplierUnguarded(generation: int)
      requires generation > 2
      requires generation - 1 >= |angles|
      ensures KerfMultiplier(generation) == 3.0 - generation as real
    {
      KerfTermsUnguarded(generation - 1, generation - 1);
      SumPrepend(1.0, KerfTerms(generation - 1, generation - 1));
    }

    /** The first two generations need no compensation, and within the plan the multiplier never drops below 1. */
    lemma {:induction false} KerfMultiplierAtLeastOne(generation: int)
      requires AnglesValid()
      requires generation <= |angles|
      ensures generation <= 2 ==> KerfMultiplier(generation) == 1.0
      ensures KerfMultiplier(generation) >= 1.0
      decreases generation
    {
      if generation > 2 {
        KerfMultiplierAtLeastOne(generation - 1);
        KerfMultiplierRecurrence(generation - 1);
        assert trig.sin(angles[generation - 1]) > 0.0;
      } else {
        assert KerfMultiplier(generation) == Sum([1.0] + []);
        SumPrepend(1.0, []);
      }
    }

    /** `getBaseCutWidth()`: the generation-0 strip width. Multiplying it by the sine factors of
        generations 1 to n-1 gives back half a design unit plus the compounded kerf. */
    function GetBaseCutWidth(): (r: real)
      requires AnglesValid()
      ensures |angles| == 0 ==> r == Sentinel
      ensures |angles| == 1 ==> r == widthRdu / 2.0 + widthKerf
      ensures |angles| > 0 && widthRdu > 0.0 && widthKerf >= 0.0 ==> r > 0.0
    {
      if |angles| == 0 then Sentinel
      else
        var numberGenerations := |angles|;
        var multiplier := SinAnglesMultiplier(1, numberGenerations - 1);
        var denominator := if multiplier < 0.0 then 1.0 else multiplier;
        SinAnglesMultiplierSign(1, numberGenerations - 1);
        KerfMultiplierAtLeastOne(numberGenerations);
        (widthRdu / 2.0 + widthKerf * KerfMultiplier(numberGenerations)) / denominator
    }

    /** `getCutLength(cutWidth, angle)`: the hypotenuse whose opposite side is the cut width plus
        the kerf, or the sentinel unless the angle is strictly between 0 and 90 degrees and the
        width is positive. */
    function GetCutLength(cutWidth: real, angle: real): (r: real)
      requires trig.Sound()
      ensures !(0.0 < Degrees(angle) < 90.0 && cutWidth > 0.0) ==> r == Sentinel
      ensures widthKerf >= 0.0 ==> (r > 0.0 <==> 0.0 < Degrees(angle) < 90.0 && cutWidth > 0.0)
    {
      if Degrees(angle) > 0.0 && Degrees(angle) < 90.0 && cutWidth > 0.0 then
        AcuteIff(angle);
        (cutWidth + widthKerf) / trig.sin(angle)
      else Sentinel
    }

    /** The cut length is the hypotenuse: times the sine of the angle it gives the width plus the kerf. */
    lemma CutLengthHypotenuse(cutWidth: real, angle: real)
      requires trig.Sound()
      requires 0.0 < Degrees(angle) < 90.0 && cutWidth > 0.0
      ensures GetCutLength(cutWidth, angle) * trig.sin(angle) == cutWidth + widthKerf
    {
      AcuteIff(angle);
    }

    /** With more than one generation the base width, multiplied by the compounded 2 sin factors of
        generations 1 to n-1, gives back half a design unit plus the compounded kerf. */
    lemma BaseCutWidthEquation()
      requires AnglesValid()
      requires |angles| > 1
      ensures GetBaseCutWidth() * SinAnglesMultiplier(1, |angles| - 1) == widthRdu / 2.0 + widthKerf * KerfMultiplier(|angles|)
    {
      SinAnglesMultiplierSign(1, |angles| - 1);
    }

    /** `getPreviousGenerationHeight(cutLength, angle, heightDesign)`: the panel height of the
        previous generation, or the sentinel unless length, angle and height are all positive
        (there is no upper bound on the angle). */
    function GetPreviousGenerationHeight(cutLength: real, angle: real, height: real): (r: real)
      ensures !(cutLength > 0.0 && angle > 0.0 && height > 0.0) ==> r == Sentinel
      ensures trig.Sound() && 0.0 < angle < RightAngle ==> (r > 0.0 <==> cutLength > 0.0 && height > 0.0)
    {
      if cutLength > 0.0 && angle > 0.0 && height > 0.0 then
        var numerator := trig.cos(RightAngle - angle) * ((height * cutLength) + trig.cos(angle));
        assert trig.Sound() && angle < RightAngle ==> numerator > 0.0 by {
          if trig.Sound() && angle < RightAngle {
            assert trig.cos(RightAngle - angle) > 0.0 && trig.cos(angle) > 0.0;
            assert height * cutLength > 0.0;
          }
        }
        numerator / cutLength
      else Sentinel
    }

    /** The previous generation's height, times the cut length, is cos(90 degrees - angle) times the
        next generation's height times the cut length plus cos(angle). */
    lemma PreviousGenerationHeightEquation(cutLength: real, angle: real, height: real)
      requires cutLength > 0.0 && angle > 0.0 && height > 0.0
      ensures GetPreviousGenerationHeight(cutLength, angle, height) * cutLength
           == trig.cos(RightAngle - angle) * (height * cutLength + trig.cos(angle))
    {
    }

    /** The cut width `setHeights` recomputes after each step: the base width scaled by the sine
        factors of angles 1 to n - 1, less the kerf scaled by a kerf multiplier. Since the base
        width was chosen so that the first of these equals half a design unit plus the kerf times
        kerfMultiplier(n), each recomputed width is half a design unit plus the kerf times the
        difference of two kerf multipliers. */
    function NextCutWidth(baseWidth: real, multiplier: real, kerfMultiplier: real): (r: real)
      ensures AnglesValid() && |angles| > 1 && baseWidth == GetBaseCutWidth() && multiplier == SinAnglesMultiplier(1, |angles| - 1)
        ==> r == widthRdu / 2.0 + widthKerf * (KerfMultiplier(|angles|) - kerfMultiplier)
    {
      assert AnglesValid() && |angles| > 1 ==>
        GetBaseCutWidth() * SinAnglesMultiplier(1, |angles| - 1) == widthRdu / 2.0 + widthKerf * KerfMultiplier(|angles|)
      by {
        if AnglesValid() && |angles| > 1 {
          BaseCutWidthEquation();
        }
      }
      baseWidth * multiplier - widthKerf * kerfMultiplier
    }

    /** The cut width `setHeights` uses at step i once it has computed `baseWidth`: half a design
        unit at the first step (i == |angles| - 2), then the value it recomputes after step i + 1. */
    function CutWidthAt(baseWidth: real, i: int): (r: real)
      ensures i >= |angles| - 2 ==> r == widthRdu / 2.0
    {
      if i >= |angles| - 2 then widthRdu / 2.0
      else NextCutWidth(baseWidth, SinAnglesMultiplier(1, |angles| - 1), KerfMultiplier(i + 2))
    }

    /** The cut lengths `setHeights` computes for generations 0 to n - 1 once it has computed
        `baseWidth`. */
    function CutLengthsUpTo(baseWidth: real, n: int): (lengths: seq<real>)
      requires trig.Sound()
      requires 0 <= n <= |angles|
      ensures |lengths| == n
      ensures forall i :: 0 <= i < n ==> lengths[i] == GetCutLength(CutWidthAt(baseWidth, i), angles[i])
    {
      if n == 0 then []
      else
        var earlier := CutLengthsUpTo(baseWidth, n - 1);
        var width := CutWidthAt(baseWidth, n - 1);
        earlier + [GetCutLength(width, angles[n - 1])]
    }

    /** The cut length of every generation (the last one's is never used). */
    function CutLengths(baseWidth: real): (lengths: seq<real>)
      requires trig.Sound()
      ensures |lengths| == |angles|
    {
      CutLengthsUpTo(baseWidth, |angles|)
    }

    /** The height `setHeights` leaves at index i when the last height is `top` and the cut
        length of generation k is `cutLengths[k]`. */
    function PropagatedHeight(top: real, cutLengths: seq<real>, i: int): (r: real)
      requires |cutLengths| == |angles|
      requires 0 <= i < |angles|
      ensures i == |angles| - 1 ==> r == top
      ensures i < |angles| - 1 && cutLengths[i] <= 0.0 ==> r == Sentinel
      decreases |angles| - i
    {
      if i == |angles| - 1 then top
      else GetPreviousGenerationHeight(cutLengths[i], angles[i], PropagatedHeight(top, cutLengths, i + 1))
    }

    /** One step of the backward pass: writing the height computed from the cut width at step i
        into index i extends the propagated heights from i + 1 down to i. */
    lemma PropagationStep(baseWidth: real, top: real, heights: seq<real>, i: int)
      requires trig.Sound()
      requires |heights| == |angles| && 0 <= i < |angles| - 1
      requires forall j :: i < j < |heights| ==> heights[j] == PropagatedHeight(top, CutLengths(baseWidth), j)
      ensures var height := GetPreviousGenerationHeight(GetCutLength(CutWidthAt(baseWidth, i), angles[i]), angles[i], heights[i + 1]);
        forall j :: i <= j < |heights| ==> heights[i := height][j] == PropagatedHeight(top, CutLengths(baseWidth), j)
    {
    }

    /** Once a height is not positive, every earlier generation's height is the sentinel,
        whatever the cut lengths. */
    lemma {:induction false} SentinelPropagates(top: real, cutLengths: seq<real>, i: int, j: int)
      requires |cutLengths| == |angles|
      requires 0 <= j <= i < |angles| - 1
      requires PropagatedHeight(top, cutLengths, i + 1) <= 0.0
      ensures PropagatedHeight(top, cutLengths, j) == Sentinel
      decreases i - j
    {
      if j < i {
        SentinelPropagates(top, cutLengths, i, j + 1);
      }
    }

    /** With a non-negative kerf, a generation's height is positive exactly when the next
        generation's height and the cut width used for it are. */
    lemma PropagatedHeightPositive(top: real, baseWidth: real, i: int)
      requires AnglesValid()
      requires widthKerf >= 0.0
      requires 0 <= i < |angles| - 1
      ensures PropagatedHeight(top, CutLengths(baseWidth), i) > 0.0 <==>
              PropagatedHeight(top, CutLengths(baseWidth), i + 1) > 0.0 && CutWidthAt(baseWidth, i) > 0.0
    {
      AcuteIff(angles[i]);
    }

    /** The cut width at every step but the first is half a design unit plus the kerf
        compensation of the whole plan less that of generation i + 2. */
    lemma CutWidthClosedForm(i: int)
      requires AnglesValid()
      requires 0 <= i < |angles| - 2
      ensures CutWidthAt(GetBaseCutWidth(), i) == widthRdu / 2.0 + widthKerf * (KerfMultiplier(|angles|) - KerfMultiplier(i + 2))
    {
      BaseCutWidthEquation();
    }

    /** The single-generation test: a 20-unit design of 10 units with a 5/64 kerf cuts its base strip 1.078125 wide. */
    lemma BaseCutWidthOneGeneration()
      requires AnglesValid()
      requires |angles| == 1 && widthRdu == 20.0 / 10.0 && widthKerf == 5.0 / 64.0
      ensures GetBaseCutWidth() == 1.078125
    {
    }
  }

  class Laminate {
    /** The full length the laminate must fill. */
    const lengthDesign: real
    /** The full height of the finished laminate: the height of the last generation. */
    const heightDesign: real
    /** The saw blade kerf. */
    const widthKerf: real
    /** The number of repeated design units along the length. */
    const rdus: int
    /** The width of one repeated design unit, `lengthDesign / rdus`. */
    const widthRdu: real
    /** `math.sin` and `math.cos`. */
    const trig: Trig

    /** `cutCmd["angle"]`: the cut angle of every generation, in radians. */
    var angles: seq<real>
    /** `cutCmd["location"]`: the placement of every generation. */
    var locations: seq<Location>
    /** `cutCmd["height"]`: the panel height of every generation. */
    var heights: seq<real>

    /** The object invariant: the three lists of the plan run in parallel. */
    ghost predicate Valid()
      reads this
    {
      Geom().AnglesValid() && |angles| == |locations| == |heights|
    }

    /** The `cutCmd` dictionary as one value. */
    function Plan(): CutCmd
      reads this
    {
      CutCmd(angles, locations, heights)
    }

    /** The values the geometry is computed from. */
    function Geom(): Geometry
      reads this`angles
    {
      Geometry(trig, widthRdu, widthKerf, angles)
    }

    constructor (cmd: string, lengthDesign: real, heightDesign: real, rdus: int, kerf: real, trig: Trig)
      requires rdus != 0
      requires trig.Sound()
      ensures Valid()
      ensures this.lengthDesign == lengthDesign && this.heightDesign == heightDesign
      ensures this.rdus == rdus && widthKerf == kerf && this.trig == trig
      ensures widthRdu == lengthDesign / rdus as real
      ensures Plan() == Parse(cmd, heightDesign)
    {
      this.lengthDesign := lengthDesign;
      this.heightDesign := heightDesign;
      this.rdus := rdus;
      widthKerf := kerf;
      widthRdu := lengthDesign / rdus as real;
      this.trig := trig;
      angles, locations, heights := [], [], [];
      new;
      var plan := ParseCmd(cmd);
    }

    /** `setEmptyCmd`: installs the empty plan. */
    method SetEmptyCmd()
      modifies this`angles, this`locations, this`heights
      ensures angles == [] && locations == [] && heights == []
    {
      angles, locations, heights := [], [], [];
    }

    /** `parseCmd`: rebuilds the plan from the command, or leaves it empty when the command is rejected. */
    method ParseCmd(cmd: string) returns (result: CutCmd)
      modifies this`angles, this`locations, this`heights
      ensures Plan() == Parse(cmd, heightDesign)
      ensures result == Plan()
    {
      SetEmptyCmd();
      var listTemp: seq<string>;
      if |cmd| > 0 {
        listTemp := Split(Compact(cmd), '/');
        assert listTemp == Tokens(cmd);
        if [] in listTemp {
          return Plan();
        }
      } else {
        return Plan();
      }
      var i := 0;
      while i < |listTemp|
        invariant 0 <= i <= |listTemp|
        invariant listTemp == Tokens(cmd) && [] !in listTemp
        invariant forall j :: 0 <= j < i ==> Accepted(listTemp, j)
        invariant Plan() == PrefixPlan(listTemp, i)
      {
        var c := listTemp[i];
        var angle := ParseInt(StripPlacement(c));
        if angle.None? {
          assert !Accepted(listTemp, i);
          RejectedToken(cmd, heightDesign, i);
          SetEmptyCmd();
          return Plan();
        }
        if angle.value <= 0 || angle.value >= 90 {
          assert !Accepted(listTemp, i);
          RejectedToken(cmd, heightDesign, i);
          SetEmptyCmd();
          return Plan();
        }
        angles := angles + [Radians(angle.value as real)];
        var location := Any;
        if 'A' in c {
          location := Ascending;
          if listTemp[0] == c {
            assert !Accepted(listTemp, i);
            RejectedToken(cmd, heightDesign, i);
            SetEmptyCmd();
            return Plan();
          }
        } else if 'D' in c {
          location := Descending;
          if listTemp[0] == c {
            assert !Accepted(listTemp, i);
            RejectedToken(cmd, heightDesign, i);
            SetEmptyCmd();
            return Plan();
          }
        }
        locations := locations + [location];
        heights := heights + [Sentinel];
        assert Accepted(listTemp, i);
        PrefixPlanStep(listTemp, i);
        i := i + 1;
      }
      AcceptedPlan(cmd, heightDesign);
      if |listTemp| > 0 {
        heights := heights[|heights| - 1 := heightDesign];
      }
      return Plan();
    }

    /** `getSinAnglesMultiplier(indexBegin, indexEnd)`: builds the list of 2 sin(a) over the
        slice of angles and multiplies it out. */
    method GetSinAnglesMultiplier(indexBegin: int, indexEnd: int) returns (result: real)
      ensures result == Geom().SinAnglesMultiplier(indexBegin, indexEnd)
    {
      var mult: seq<real> := [];
      result := Sentinel;
      if indexBegin >= 0 && indexEnd >= 0 && indexBegin <= indexEnd && indexEnd < |angles| {
        var slice := angles[indexBegin..indexEnd + 1];
        var k := 0;
        while k < |slice|
          invariant 0 <= k <= |slice|
          invariant mult == DoubledSines(trig, slice[..k])
        {
          mult := mult + [2.0 * trig.sin(slice[k])];
          k := k + 1;
        }
        assert slice[..k] == slice;
        result := Product(mult);
        Geom().SinAnglesMultiplierIsReduce(indexBegin, indexEnd);
      }
    }

    /** `kerfMultiplier(generation)`: sums 1 and the multipliers from generation - 1 down to 2. */
    method GetKerfMultiplier(generation: int) returns (result: real)
      ensures result == Geom().KerfMultiplier(generation)
    {
      ghost var geometry := Geom();
      var arr := [1.0];
      var maxindex := generation - 1;
      if generation > 2 {
        var index := generation - 1;
        while index >= 2
          invariant 1 <= index <= generation - 1
          invariant angles == geometry.angles
          invariant arr + geometry.KerfTerms(index, maxindex) == [1.0] + geometry.KerfTerms(generation - 1, maxindex)
        {
          var term := GetSinAnglesMultiplier(index, maxindex);
          arr := arr + [term];
          index := index - 1;
        }
        assert arr + geometry.KerfTerms(index, maxindex) == arr + [] == arr;
      } else {
        assert [1.0] + [] == arr;
      }
      result := Sum(arr);
    }

    /** The closed form of `getNumberCuts(generation)`: rdus doubled generation + 1 times, or -1. */
    function NumberCuts(generation: int): (n: int)
      ensures generation <= 0 ==> n == -1
    {
      if generation > 0 then rdus * Pow2(generation + 1) else -1
    }

    /** `getNumberCuts(generation)`. */
    method GetNumberCuts(generation: int) returns (designUnits: int)
      ensures designUnits == NumberCuts(generation)
    {
      designUnits := -1;
      if generation > 0 {
        designUnits := rdus;
        var i := 0;
        while i < generation
          invariant 0 <= i <= generation
          invariant designUnits == rdus * Pow2(i)
        {
          designUnits := designUnits * 2;
          i := i + 1;
        }
        designUnits := designUnits * 2;
      }
    }

    /** Each further generation doubles the number of cuts. */
    lemma NumberCutsDoubling(generation: int)
      requires generation > 1
      ensures NumberCuts(generation) == 2 * NumberCuts(generation - 1)
    {
    }

    /** Each further generation doubles the number of cuts, so it strictly increases. */
    lemma {:induction false} NumberCutsIncreasing(generation: int, later: int)
      requires rdus > 0
      requires 0 < generation < later
      ensures NumberCuts(generation) < NumberCuts(later)
      decreases later
    {
      if later > generation + 1 {
        NumberCutsIncreasing(generation, later - 1);
      }
      NumberCutsDoubling(later);
    }

    lemma NumberCutsExamples()
      requires rdus == 10
      ensures NumberCuts(0) == -1
      ensures NumberCuts(1) == 40 && NumberCuts(2) == 80 && NumberCuts(3) == 160 && NumberCuts(4) == 320
    {
    }

    /** `setHeights()`: fills every height but the last, from the last-but-one back to the first. */
    method SetHeights()
      requires Valid()
      modifies this`heights
      ensures Valid()
      ensures |heights| == old(|heights|)
      ensures |heights| > 0 ==> heights[|heights| - 1] == old(heights[|heights| - 1])
      ensures |heights| <= 1 ==> heights == old(heights)
      ensures forall i :: 0 <= i < |heights| ==>
        heights[i] == Geom().PropagatedHeight(heights[|heights| - 1], Geom().CutLengths(Geom().GetBaseCutWidth()), i)
    {
      var geometry := Geom();
      var cutWidth := widthRdu / 2.0;
      var baseWidth := geometry.GetBaseCutWidth();
      var maxindex := |angles| - 1;
      ghost var top := if maxindex >= 0 then heights[maxindex] else 0.0;
      ghost var lengths := geometry.CutLengths(baseWidth);
      var i := maxindex;
      while i > 0
        invariant -1 <= i <= maxindex
        invariant |heights| == |angles| && angles == geometry.angles
        invariant forall j :: i <= j < |heights| && j >= 0 ==> heights[j] == geometry.PropagatedHeight(top, lengths, j)
        invariant cutWidth == geometry.CutWidthAt(baseWidth, i - 1)
      {
        i := i - 1;
        // The two multipliers change nothing, so computing them first leaves the result as it is.
        var multiplier := GetSinAnglesMultiplier(1, maxindex);
        var kerfMultiplier := GetKerfMultiplier(i + 1);
        var angle := angles[i];
        var cutLength := geometry.GetCutLength(cutWidth, angle);
        var height := geometry.GetPreviousGenerationHeight(cutLength, angle, heights[i + 1]);
        geometry.PropagationStep(baseWidth, top, heights, i);
        heights := heights[i := height];
        cutWidth := geometry.NextCutWidth(baseWidth, multiplier, kerfMultiplier);
      }
    }
  }
}
