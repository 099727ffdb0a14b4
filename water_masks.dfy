/**
  The per-pixel classification of the seasonal water-mask script: Sentinel-2
  Level-2A masking by SCL class, the two Automated Water Extraction Index
  (AWEI) variants of Feyisa et al. (2014), the seasonal AWEI layer with its
  empty-collection fallback, the Dynamic World probability threshold, the JRC
  stable-water reference, and the disagreement and export layers.
 */
module WaterMasks {
  import opened Raster
  import SatelliteImages

  // ---------------- Sentinel-2 Level-2A masking ----------------

  /** The SCL rule of this script, stated as the set of classes it keeps. */
  predicate SclClassUsable(scl: nat)
  {
    scl !in {0, 1, 3, 8, 9, 10, 11}
  }

  /** The SCL test as the script writes it: a chain of `neq` joined by `and`. */
  predicate SclNotExcluded(scl: nat)
  {
    scl != 0 && scl != 1 && scl != 3 && scl != 8 && scl != 9 && scl != 10 && scl != 11
  }

  /**
    `maskS2SR`: every band of the image, masked where the SCL class is one of
    0, 1, 3, 8, 9, 10, 11 (or SCL itself is masked); all other pixels pass untouched.
   */
  function MaskS2SR(img: Image<nat>): (r: Image<nat>)
    requires HasBands(img, ["SCL"])
    ensures r.bands == img.bands && |r.pixels| == |img.pixels| && Shaped(r)
    ensures forall i, j | 0 <= i < |r.pixels| && 0 <= j < |r.bands| ::
      r.pixels[i][j] ==
        if Value(img, i, "SCL").Some? && SclClassUsable(Value(img, i, "SCL").value) then img.pixels[i][j] else None
  {
    var scl := BandOf(img, "SCL");
    var mask := Classify(scl, SclNotExcluded);
    var r := UpdateMask(img, mask);
    assert forall i | 0 <= i < |mask| :: Passes(mask[i]) == (scl[i].Some? && SclClassUsable(scl[i].value)) by {
      forall i | 0 <= i < |mask|
        ensures Passes(mask[i]) == (scl[i].Some? && SclClassUsable(scl[i].value))
      {
        assert mask[i] == MapOption(scl[i], (c: nat) => if SclNotExcluded(c) then 1 else 0);
      }
    }
    r
  }

  /**
    Over the defined SCL classes 0..11 the two scripts' rules disagree on
    exactly two: class 2 (dark area) passes only here, class 11 (snow) passes only
    in the composite script's SR path.
   */
  lemma SclRulesDiffer(scl: nat)
    requires scl <= 11
    ensures SclClassUsable(scl) != SatelliteImages.SrClassUsable(scl) <==> scl == 2 || scl == 11
  {
  }

  // ---------------- AWEI ----------------

  /** The bands `awei_sh` reads: green, NIR and the two SWIR bands. */
  const AweiShBands: seq<string> := ["B3", "B8", "B11", "B12"]

  /** The bands `awei_nsh` reads: blue as well. */
  const AweiBands: seq<string> := ["B2", "B3", "B8", "B11", "B12"]

  /** The four `awei_sh` bands present at pixel i. */
  predicate AweiShInputsPresent(img: Image<nat>, i: nat)
    requires HasBands(img, AweiShBands) && i < |img.pixels|
  {
    Value(img, i, "B3").Some? && Value(img, i, "B8").Some? &&
    Value(img, i, "B11").Some? && Value(img, i, "B12").Some?
  }

  /** All five `awei_nsh` bands present at pixel i. */
  predicate AweiInputsPresent(img: Image<nat>, i: nat)
    requires HasBands(img, AweiBands) && i < |img.pixels|
  {
    Value(img, i, "B2").Some? && Value(img, i, "B3").Some? && Value(img, i, "B8").Some? &&
    Value(img, i, "B11").Some? && Value(img, i, "B12").Some?
  }

  /** Digital number of a band at a pixel where that band is present. */
  function Dn(img: Image<nat>, i: nat, band: string): int
    requires Shaped(img) && i < |img.pixels| && band in img.bands && Value(img, i, band).Some?
  {
    Value(img, i, band).value
  }

  /** `awei_sh` on reflectances: 4(G - SW1) - (0.25 N + 2.75 SW2). */
  function AweiShValue(g: real, n: real, sw1: real, sw2: real): real
  {
    (g - sw1) * 4.0 - (n * 0.25 + sw2 * 2.75)
  }

  /** `awei_nsh` on reflectances, as the script writes it: B + 2.5 G - (1.5 N + SW1 + 0.25 SW2). */
  function AweiNshValueAsWritten(b: real, g: real, n: real, sw1: real, sw2: real): real
  {
    b + g * 2.5 - (n * 1.5 + sw1 + sw2 * 0.25)
  }

  /** The five-band index of Feyisa et al. (2014): B + 2.5 G - 1.5 (N + SW1) - 0.25 SW2. */
  function AweiNshValue(b: real, g: real, n: real, sw1: real, sw2: real): real
  {
    b + g * 2.5 - (n + sw1) * 1.5 - sw2 * 0.25
  }

  /** The script's five-band formula weights SW1 by 1 where the published index weights it by 1.5. */
  lemma NshSwir1WeightDiffers()
    ensures AweiNshValueAsWritten(0.0, 0.0, 0.0, 0.1, 0.0) == -0.1
    ensures AweiNshValue(0.0, 0.0, 0.0, 0.1, 0.0) == -0.15
  {
  }

  /**
    `awei_sh` on an image: bands divided by 10000 and combined; masked where any
    input band is masked. On digital numbers it is (16 G - 16 SW1 - N - 11 SW2) / 40000.
   */
  function AweiSh(img: Image<nat>): (r: Band<real>)
    requires HasBands(img, AweiShBands)
    ensures |r| == |img.pixels|
    ensures forall i | 0 <= i < |r| :: r[i].Some? <==> AweiShInputsPresent(img, i)
    ensures forall i | 0 <= i < |r| && AweiShInputsPresent(img, i) ::
      r[i].value == (16 * Dn(img, i, "B3") - 16 * Dn(img, i, "B11") - Dn(img, i, "B8") - 11 * Dn(img, i, "B12")) as real / 40000.0
  {
    seq(|img.pixels|, i requires 0 <= i < |img.pixels| =>
      if AweiShInputsPresent(img, i) then
        Some(AweiShValue(Dn(img, i, "B3") as real / 10000.0, Dn(img, i, "B8") as real / 10000.0,
                         Dn(img, i, "B11") as real / 10000.0, Dn(img, i, "B12") as real / 10000.0))
      else None)
  }

  /**
    `awei_nsh` on an image exactly as written; on digital numbers it is
    (4 B + 10 G - 6 N - 4 SW1 - SW2) / 40000.
   */
  function AweiNshAsWritten(img: Image<nat>): (r: Band<real>)
    requires HasBands(img, AweiBands)
    ensures |r| == |img.pixels|
    ensures forall i | 0 <= i < |r| :: r[i].Some? <==> AweiInputsPresent(img, i)
    ensures forall i | 0 <= i < |r| && AweiInputsPresent(img, i) ::
      r[i].value == (4 * Dn(img, i, "B2") + 10 * Dn(img, i, "B3") - 6 * Dn(img, i, "B8")
                     - 4 * Dn(img, i, "B11") - Dn(img, i, "B12")) as real / 40000.0
  {
    seq(|img.pixels|, i requires 0 <= i < |img.pixels| =>
      if AweiInputsPresent(img, i) then
        Some(AweiNshValueAsWritten(Dn(img, i, "B2") as real / 10000.0, Dn(img, i, "B3") as real / 10000.0,
                                   Dn(img, i, "B8") as real / 10000.0, Dn(img, i, "B11") as real / 10000.0,
                                   Dn(img, i, "B12") as real / 10000.0))
      else None)
  }

  /**
    `awei_nsh` with the published SW1 weight; on digital numbers it is
    (4 B + 10 G - 6 N - 6 SW1 - SW2) / 40000.
   */
  function AweiNsh(img: Image<nat>): (r: Band<real>)
    requires HasBands(img, AweiBands)
    ensures |r| == |img.pixels|
    ensures forall i | 0 <= i < |r| :: r[i].Some? <==> AweiInputsPresent(img, i)
    ensures forall i | 0 <= i < |r| && AweiInputsPresent(img, i) ::
      r[i].value == (4 * Dn(img, i, "B2") + 10 * Dn(img, i, "B3") - 6 * Dn(img, i, "B8")
                     - 6 * Dn(img, i, "B11") - Dn(img, i, "B12")) as real / 40000.0
  {
    seq(|img.pixels|, i requires 0 <= i < |img.pixels| =>
      if AweiInputsPresent(img, i) then
        Some(AweiNshValue(Dn(img, i, "B2") as real / 10000.0, Dn(img, i, "B3") as real / 10000.0,
                          Dn(img, i, "B8") as real / 10000.0, Dn(img, i, "B11") as real / 10000.0,
                          Dn(img, i, "B12") as real / 10000.0))
      else None)
  }

  /** The two five-band formulas agree exactly where SW1 is zero. */
  lemma NshVersionsAgreeIffNoSwir1(img: Image<nat>, i: nat)
    requires HasBands(img, AweiBands) && i < |img.pixels| && AweiInputsPresent(img, i)
    ensures AweiNsh(img)[i] == AweiNshAsWritten(img)[i] <==> Dn(img, i, "B11") == 0
  {
  }

  /** The variant name that selects `awei_sh`; every other name selects `awei_nsh`. */
  const AweiShVariant: string := "AWEI_sh"

  /** The bands a variant reads. */
  function VariantBands(variant: string): seq<string>
  {
    if variant == AweiShVariant then AweiShBands else AweiBands
  }

  /** The bands a variant reads are all present at pixel i. */
  predicate VariantInputsPresent(variant: string, img: Image<nat>, i: nat)
    requires HasBands(img, VariantBands(variant)) && i < |img.pixels|
  {
    if variant == AweiShVariant then AweiShInputsPresent(img, i) else AweiInputsPresent(img, i)
  }

  /**
    The index line 109 of the script computes for a variant name: `awei_sh` for
    "AWEI_sh", and `awei_nsh` as written for every other name.
   */
  function AweiFor(variant: string, img: Image<nat>): (r: Band<real>)
    requires HasBands(img, VariantBands(variant))
    ensures |r| == |img.pixels|
    ensures forall i | 0 <= i < |r| :: r[i].Some? <==> VariantInputsPresent(variant, img, i)
    ensures variant == AweiShVariant ==> r == AweiSh(img)
    ensures variant != AweiShVariant ==> r == AweiNshAsWritten(img)
  {
    if variant == AweiShVariant then AweiSh(img) else AweiNshAsWritten(img)
  }

  /** The bands a Level-2A image must carry for the seasonal index of a variant. */
  function SeasonInputBands(variant: string): seq<string>
  {
    ["SCL"] + VariantBands(variant)
  }

  /**
    The index of one Level-2A image after SCL masking: the variant's index of
    the image where the SCL class is usable, and masked elsewhere.
   */
  function MaskedAwei(variant: string, img: Image<nat>): (r: Band<real>)
    requires HasBands(img, SeasonInputBands(variant))
    ensures |r| == |img.pixels|
    ensures forall i | 0 <= i < |r| ::
      r[i] == if Value(img, i, "SCL").Some? && SclClassUsable(Value(img, i, "SCL").value)
              then AweiFor(variant, img)[i] else None
  {
    var r := AweiFor(variant, MaskS2SR(img));
    assert forall i | 0 <= i < |r| ::
      r[i] == if Value(img, i, "SCL").Some? && SclClassUsable(Value(img, i, "SCL").value)
              then AweiFor(variant, img)[i] else None
    by {
      forall i | 0 <= i < |r|
        ensures r[i] == if Value(img, i, "SCL").Some? && SclClassUsable(Value(img, i, "SCL").value)
                        then AweiFor(variant, img)[i] else None
      {
        MaskedAweiAt(variant, img, i);
      }
    }
    r
  }

  /** SCL masking keeps a band's value at a usable pixel and masks it elsewhere. */
  lemma MaskedValue(img: Image<nat>, i: nat, n: string)
    requires HasBands(img, ["SCL"]) && i < |img.pixels| && n in img.bands
    ensures Value(MaskS2SR(img), i, n) ==
      if Value(img, i, "SCL").Some? && SclClassUsable(Value(img, i, "SCL").value) then Value(img, i, n) else None
  {
    var m := MaskS2SR(img);
    assert m.pixels[i][IndexOf(m.bands, n)] ==
      if Value(img, i, "SCL").Some? && SclClassUsable(Value(img, i, "SCL").value)
      then img.pixels[i][IndexOf(img.bands, n)] else None;
  }

  /** `awei_sh` at a pixel depends only on its four bands there. */
  lemma AweiShLocal(a: Image<nat>, b: Image<nat>, i: nat)
    requires HasBands(a, AweiShBands) && HasBands(b, AweiShBands) && i < |a.pixels| && i < |b.pixels|
    requires Value(a, i, "B3") == Value(b, i, "B3") && Value(a, i, "B8") == Value(b, i, "B8")
    requires Value(a, i, "B11") == Value(b, i, "B11") && Value(a, i, "B12") == Value(b, i, "B12")
    ensures AweiSh(a)[i] == AweiSh(b)[i]
  {
  }

  /** One pixel of `MaskedAwei` for "AWEI_sh". */
  lemma MaskedAweiShAt(img: Image<nat>, i: nat)
    requires HasBands(img, ["SCL"] + AweiShBands) && i < |img.pixels|
    ensures AweiSh(MaskS2SR(img))[i] ==
      if Value(img, i, "SCL").Some? && SclClassUsable(Value(img, i, "SCL").value) then AweiSh(img)[i] else None
  {
    assert "SCL" in ["SCL"] + AweiShBands;
    assert forall n | n in AweiShBands :: n in ["SCL"] + AweiShBands;
    MaskedValue(img, i, "B3");
    MaskedValue(img, i, "B8");
    MaskedValue(img, i, "B11");
    MaskedValue(img, i, "B12");
    if Value(img, i, "SCL").Some? && SclClassUsable(Value(img, i, "SCL").value) {
      AweiShLocal(MaskS2SR(img), img, i);
    } else {
      assert !AweiShInputsPresent(MaskS2SR(img), i);
    }
  }

  /** The as-written five-band index at a pixel depends only on the five bands there. */
  lemma AweiNshAsWrittenLocal(a: Image<nat>, b: Image<nat>, i: nat)
    requires HasBands(a, AweiBands) && HasBands(b, AweiBands) && i < |a.pixels| && i < |b.pixels|
    requires Value(a, i, "B2") == Value(b, i, "B2") && Value(a, i, "B3") == Value(b, i, "B3")
    requires Value(a, i, "B8") == Value(b, i, "B8") && Value(a, i, "B11") == Value(b, i, "B11")
    requires Value(a, i, "B12") == Value(b, i, "B12")
    ensures AweiNshAsWritten(a)[i] == AweiNshAsWritten(b)[i]
  {
  }

  /** One pixel of `MaskedAwei` for every other variant name. */
  lemma MaskedAweiNshAt(img: Image<nat>, i: nat)
    requires HasBands(img, ["SCL"] + AweiBands) && i < |img.pixels|
    ensures AweiNshAsWritten(MaskS2SR(img))[i] ==
      if Value(img, i, "SCL").Some? && SclClassUsable(Value(img, i, "SCL").value) then AweiNshAsWritten(img)[i] else None
  {
    assert "SCL" in ["SCL"] + AweiBands;
    assert forall n | n in AweiBands :: n in ["SCL"] + AweiBands;
    MaskedValue(img, i, "B2");
    MaskedValue(img, i, "B3");
    MaskedValue(img, i, "B8");
    MaskedValue(img, i, "B11");
    MaskedValue(img, i, "B12");
    if Value(img, i, "SCL").Some? && SclClassUsable(Value(img, i, "SCL").value) {
      AweiNshAsWrittenLocal(MaskS2SR(img), img, i);
    } else {
      assert !AweiInputsPresent(MaskS2SR(img), i);
    }
  }

  /** One pixel of `MaskedAwei`: SCL masking either keeps the index or masks it. */
  lemma MaskedAweiAt(variant: string, img: Image<nat>, i: nat)
    requires HasBands(img, SeasonInputBands(variant)) && i < |img.pixels|
    ensures AweiFor(variant, MaskS2SR(img))[i] ==
      if Value(img, i, "SCL").Some? && SclClassUsable(Value(img, i, "SCL").value)
      then AweiFor(variant, img)[i] else None
  {
    if variant == AweiShVariant {
      MaskedAweiShAt(img, i);
    } else {
      MaskedAweiNshAt(img, i);
    }
  }

  /** What `buildAWEISeason` returns: the seasonal index, its water mask and the image count. */
  datatype AweiSeason = AweiSeason(awei: Band<real>, mask: Band<int>, count: nat)

  /**
    `buildAWEISeason` over the Level-2A images of the window, on a region of
    `gridSize` pixels. `median` is the raster service's per-pixel median reducer.
    With images, the index is the clipped median of the per-image indices; with
    none, it is masked everywhere. The water mask is the index thresholded with
    `gte`, and the count is the number of images.
   */
  function BuildAweiSeason(col: seq<Image<nat>>, variant: string, thr: real,
                           median: seq<Band<real>> -> Band<real>, gridSize: nat): (r: AweiSeason)
    requires forall k | 0 <= k < |col| :: HasBands(col[k], SeasonInputBands(variant))
    ensures r.count == |col|
    ensures |r.awei| == gridSize && |r.mask| == gridSize
    ensures |col| == 0 ==> forall i | 0 <= i < gridSize :: r.awei[i] == None && r.mask[i] == None
    ensures |col| > 0 ==>
      r.awei == Clip(median(seq(|col|, k requires 0 <= k < |col| => MaskedAwei(variant, col[k]))), gridSize)
    ensures forall i | 0 <= i < gridSize ::
      (r.mask[i] == None <==> r.awei[i] == None) &&
      (r.mask[i] == Some(1) <==> r.awei[i].Some? && r.awei[i].value >= thr) &&
      (r.mask[i] == Some(0) <==> r.awei[i].Some? && r.awei[i].value < thr)
  {
    var n := |col|;
    var aweiMed :=
      if n > 0 then Clip(median(seq(n, k requires 0 <= k < n => MaskedAwei(variant, col[k]))), gridSize)
      else EmptyBand(gridSize);
    AweiSeason(aweiMed, Gte(aweiMed, thr), n)
  }

  // ---------------- Dynamic World and JRC ----------------

  /** `dwBinary`: the Dynamic World water probability thresholded with `gte`. */
  function DwBinary(prob: Band<real>, thr: real): (r: Band<int>)
    ensures |r| == |prob|
    ensures forall i | 0 <= i < |r| ::
      (r[i] == None <==> prob[i] == None) &&
      (r[i] == Some(1) <==> prob[i].Some? && prob[i].value >= thr) &&
      (r[i] == Some(0) <==> prob[i].Some? && prob[i].value < thr)
  {
    Gte(prob, thr)
  }

  /** A probability or index exactly at the threshold classifies as water. */
  lemma ThresholdIsInclusive(thr: real)
    ensures DwBinary([Some(thr)], thr) == [Some(1)]
    ensures Gte([Some(thr)], thr) == [Some(1)]
  {
    assert DwBinary([Some(thr)], thr)[0] == Some(1);
    assert Gte([Some(thr)], thr)[0] == Some(1);
  }

  /**
    `jrcStable`: 1 where occurrence reaches the threshold, 0 where it is at most 1
    (and below the threshold), masked in between and where occurrence is masked.
   */
  function JrcStable(occ: Band<real>, thr: real): (r: Band<int>)
    ensures |r| == |occ|
    ensures forall i | 0 <= i < |r| ::
      (r[i] == Some(1) <==> occ[i].Some? && occ[i].value >= thr) &&
      (r[i] == Some(0) <==> occ[i].Some? && occ[i].value <= 1.0 && occ[i].value < thr) &&
      (r[i] == None <==> occ[i] == None || (1.0 < occ[i].value < thr))
  {
    var water := Gte(occ, thr);
    var nonwater := Lte(occ, 1.0);
    UpdateMaskBand(water, Or(water, nonwater))
  }

  /** With the threshold the script uses (50), the reference is 0 exactly at occurrence up to 1 %. */
  lemma JrcTriStateAt50(occ: Band<real>, i: nat)
    requires i < |occ| && occ[i].Some?
    ensures JrcStable(occ, 50.0)[i] == Some(0) <==> occ[i].value <= 1.0
    ensures JrcStable(occ, 50.0)[i] == Some(1) <==> occ[i].value >= 50.0
    ensures JrcStable(occ, 50.0)[i] == None <==> 1.0 < occ[i].value < 50.0
  {
  }

  // ---------------- Exported layers ----------------

  /** `dwMask.neq(aweiMask).selfMask()`: 1 where both masks are present and differ, masked everywhere else. */
  function Disagreement(dw: Band<int>, awei: Band<int>): (r: Band<int>)
    requires |dw| == |awei|
    ensures |r| == |dw|
    ensures forall i | 0 <= i < |r| ::
      (r[i] == Some(1) <==> dw[i].Some? && awei[i].Some? && dw[i].value != awei[i].value) &&
      (r[i] != Some(1) ==> r[i] == None)
  {
    SelfMask(Neq(dw, awei))
  }

  /** `aweiMask.updateMask(aweiMask)`: a 0/1 mask keeps its water pixels and masks the rest. */
  function WaterOnly(mask: Band<int>): (r: Band<int>)
    requires forall i | 0 <= i < |mask| :: mask[i] == None || mask[i] == Some(0) || mask[i] == Some(1)
    ensures |r| == |mask|
    ensures forall i | 0 <= i < |r| :: (r[i] == Some(1) <==> mask[i] == Some(1)) && (r[i] != Some(1) ==> r[i] == None)
  {
    UpdateMaskBand(mask, mask)
  }

  /** Once unmasked to 0, a 0/1 mask (the DW mask or the JRC reference) is defined everywhere and 0/1 valued. */
  lemma UnmaskedIsBinary(b: Band<int>)
    requires forall i | 0 <= i < |b| :: b[i] == None || b[i] == Some(0) || b[i] == Some(1)
    ensures forall i | 0 <= i < |b| :: Unmask(b, 0)[i] == Some(0) || Unmask(b, 0)[i] == Some(1)
    ensures forall i | 0 <= i < |b| :: Unmask(b, 0)[i] == Some(1) <==> b[i] == Some(1)
  {
  }
}
