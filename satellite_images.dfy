/**
  Composite inputs of the river-segment imagery script: Landsat Collection 2
  Level-2 scaling and QA_PIXEL masking, the two Sentinel-2 masking paths
  (surface reflectance by SCL class, top-of-atmosphere by QA60 bits), and the
  rule that decides which Sentinel-2 images go into the hybrid composite.

  The per-pixel median and the clip to the region are left to the caller; the
  functions here yield the collections those reducers are applied to.
 */
module SatelliteImages {
  import opened Raster
  import opened Bits

  // ---------------- Landsat 5 / 7 Collection 2 Level-2 ----------------

  /** The band names every normalised Landsat image carries. */
  const LandsatCommonBands: seq<string> := ["blue", "green", "red", "nir", "swir1", "swir2"]

  /** The Level-2 input bands the scaling reads, besides QA_PIXEL. */
  const LandsatInputBands: seq<string> := ["SR_B1", "SR_B2", "SR_B3", "SR_B4", "SR_B5", "SR_B7", "QA_PIXEL"]

  /** The surface-reflectance bands selected for a sensor ("L5"; any other name is treated as L7). */
  function LandsatSrBands(sensor: string): seq<string>
  {
    if sensor == "L5" then ["SR_B1", "SR_B2", "SR_B3", "SR_B4", "SR_B5", "SR_B7"]
    else ["SR_B1", "SR_B2", "SR_B3", "SR_B4", "SR_B5", "SR_B7"]
  }

  /** Collection 2 Level-2 surface reflectance of a digital number. */
  function LandsatReflectance(dn: nat): real
  {
    dn as real * 0.0000275 + -0.2
  }

  /** The scaling is strictly increasing, DN 0 maps to -0.2, and it is undone by (r + 0.2) / 0.0000275. */
  lemma LandsatReflectanceProperties(a: nat, b: nat)
    ensures a < b ==> LandsatReflectance(a) < LandsatReflectance(b)
    ensures LandsatReflectance(0) == -0.2
    ensures (LandsatReflectance(a) + 0.2) / 0.0000275 == a as real
  {
  }

  /** The usability rule stated on QA_PIXEL bits: dilated cloud (1), cloud (3), cloud shadow (4), snow (5) all clear. */
  predicate LandsatUsable(qa: nat)
  {
    !TestBit(qa, 1) && !TestBit(qa, 3) && !TestBit(qa, 4) && !TestBit(qa, 5)
  }

  /** The QA_PIXEL test as the script writes it, with `bitwiseAnd(1 << k).eq(0)` per flag. */
  function QaPixelClear(qa: nat): (r: bool)
    ensures r <==> LandsatUsable(qa)
  {
    MaskTestIsBitTest(qa, 1);
    MaskTestIsBitTest(qa, 3);
    MaskTestIsBitTest(qa, 4);
    MaskTestIsBitTest(qa, 5);
    BitAnd(qa, Pow2(1)) == 0 && BitAnd(qa, Pow2(3)) == 0 && BitAnd(qa, Pow2(4)) == 0 && BitAnd(qa, Pow2(5)) == 0
  }

  /** The QA bits the Landsat mask reads. */
  const LandsatMaskBits: set<nat> := {1, 3, 4, 5}

  /** Flipping a QA_PIXEL bit outside {1, 3, 4, 5} never changes usability. */
  lemma {:induction false} LandsatMaskIgnoresOtherBits(qa: nat, j: nat)
    requires j !in LandsatMaskBits && !TestBit(qa, j)
    ensures QaPixelClear(qa + Pow2(j)) == QaPixelClear(qa)
  {
    SetBitKeepsOthers(qa, j, 1);
    SetBitKeepsOthers(qa, j, 3);
    SetBitKeepsOthers(qa, j, 4);
    SetBitKeepsOthers(qa, j, 5);
  }

  /** A pixel of the normalised image: kept where QA_PIXEL is present and usable. */
  function LandsatPixel(img: Image<nat>, i: nat, band: string): Option<real>
    requires HasBands(img, LandsatInputBands) && i < |img.pixels| && band in img.bands
  {
    match Value(img, i, "QA_PIXEL")
    case Some(qa) => if LandsatUsable(qa) then MapOption(Value(img, i, band), LandsatReflectance) else None
    case None => None
  }

  /**
    `scaleMaskLandsatC2`: the six reflectance bands, scaled and renamed to the
    common schema, all masked by the one QA_PIXEL mask.
   */
  function ScaleMaskLandsatC2(img: Image<nat>, sensor: string): (r: Image<real>)
    requires HasBands(img, LandsatInputBands)
    ensures r.bands == LandsatCommonBands && |r.pixels| == |img.pixels| && Shaped(r)
    ensures forall i, j | 0 <= i < |r.pixels| && 0 <= j < |r.bands| ::
      r.pixels[i][j] == LandsatPixel(img, i, LandsatSrBands(sensor)[j])
  {
    var qa := BandOf(img, "QA_PIXEL");
    LandsatMaskBand(qa);
    UpdateMask(LandsatScaled(img, sensor), Classify(qa, QaPixelClear))
  }

  /** The selected bands scaled to reflectance and renamed, before masking. */
  function LandsatScaled(img: Image<nat>, sensor: string): (r: Image<real>)
    requires HasBands(img, LandsatInputBands)
    ensures r.bands == LandsatCommonBands && |r.pixels| == |img.pixels| && Shaped(r)
    ensures forall i, j | 0 <= i < |r.pixels| && 0 <= j < |r.bands| ::
      r.pixels[i][j] == MapOption(Value(img, i, LandsatSrBands(sensor)[j]), LandsatReflectance)
  {
    var r := Rename(Add(Multiply(Select(img, LandsatSrBands(sensor)), 0.0000275), -0.2), LandsatCommonBands);
    assert forall i, j | 0 <= i < |r.pixels| && 0 <= j < |r.bands| ::
      r.pixels[i][j] == MapOption(Value(img, i, LandsatSrBands(sensor)[j]), LandsatReflectance)
    by {
      forall i, j | 0 <= i < |r.pixels| && 0 <= j < |r.bands|
        ensures r.pixels[i][j] == MapOption(Value(img, i, LandsatSrBands(sensor)[j]), LandsatReflectance)
      {
        var dn := Value(img, i, LandsatSrBands(sensor)[j]);
        assert r.pixels[i][j] == MapOption(MapOption(dn, (v: nat) => v as real * 0.0000275), (v: real) => v + -0.2);
      }
    }
    r
  }

  /** The QA_PIXEL mask passes exactly the pixels whose QA value is present and usable. */
  lemma LandsatMaskBand(qa: Band<nat>)
    ensures forall i | 0 <= i < |qa| ::
      Passes(Classify(qa, QaPixelClear)[i]) == (qa[i].Some? && LandsatUsable(qa[i].value))
  {
    var mask := Classify(qa, QaPixelClear);
    forall i | 0 <= i < |qa|
      ensures Passes(mask[i]) == (qa[i].Some? && LandsatUsable(qa[i].value))
    {
      assert mask[i] == MapOption(qa[i], (q: nat) => if QaPixelClear(q) then 1 else 0);
    }
  }

  /** L5 and L7 images are scaled identically: the sensor name does not matter. */
  lemma LandsatSensorIndependent(img: Image<nat>, sensor: string)
    requires HasBands(img, LandsatInputBands)
    ensures ScaleMaskLandsatC2(img, sensor) == ScaleMaskLandsatC2(img, "L5")
  {
  }

  function ScaleMaskAll(c: seq<Image<nat>>, sensor: string): (r: seq<Image<real>>)
    requires forall k | 0 <= k < |c| :: HasBands(c[k], LandsatInputBands)
    ensures |r| == |c|
    ensures forall k | 0 <= k < |r| :: r[k] == ScaleMaskLandsatC2(c[k], sensor)
  {
    seq(|c|, k requires 0 <= k < |c| => ScaleMaskLandsatC2(c[k], sensor))
  }

  /**
    `landsat2000Composite` without its median and clip: the L5 images followed
    by the L7 images, all in the common schema.
   */
  function Landsat2000Collection(l5: seq<Image<nat>>, l7: seq<Image<nat>>): (r: seq<Image<real>>)
    requires forall k | 0 <= k < |l5| :: HasBands(l5[k], LandsatInputBands)
    requires forall k | 0 <= k < |l7| :: HasBands(l7[k], LandsatInputBands)
    ensures |r| == |l5| + |l7|
    ensures forall k | 0 <= k < |r| :: r[k].bands == LandsatCommonBands
    ensures forall k | 0 <= k < |l5| :: r[k] == ScaleMaskLandsatC2(l5[k], "L5")
    ensures forall k | 0 <= k < |l7| :: r[|l5| + k] == ScaleMaskLandsatC2(l7[k], "L7")
  {
    ScaleMaskAll(l5, "L5") + ScaleMaskAll(l7, "L7")
  }

  // ---------------- Sentinel-2 ----------------

  /** The band names every normalised Sentinel-2 image carries. */
  const S2CommonBands: seq<string> := ["blue", "green", "red", "nir"]

  /** The reflectance bands both Sentinel-2 paths read. */
  const S2ReflectanceBands: seq<string> := ["B2", "B3", "B4", "B8"]

  /** Sentinel-2 reflectance of a digital number. */
  function S2Reflectance(dn: nat): real
  {
    dn as real / 10000.0
  }

  /** The SCL classes the surface-reflectance path keeps, as the script tests them. */
  predicate SclKeep(scl: nat)
  {
    scl == 4 || scl == 5 || scl == 6 || scl == 7 || scl == 11
  }

  /** QA60 as the script tests it: a cloud where bit 10 or bit 11 is non-zero. */
  function Qa60Cloud(qa: nat): (r: bool)
    ensures r <==> TestBit(qa, 10) || TestBit(qa, 11)
  {
    MaskTestIsBitTest(qa, 10);
    MaskTestIsBitTest(qa, 11);
    BitAnd(qa, Pow2(10)) != 0 || BitAnd(qa, Pow2(11)) != 0
  }

  /** The SCL rule stated as a set of classes: vegetation, bare soil, water, unclassified, snow. */
  predicate SrClassUsable(scl: nat)
  {
    scl in {4, 5, 6, 7, 11}
  }

  /** The QA60 rule stated on bits: opaque cloud (10) and cirrus (11) both clear. */
  predicate ToaUsable(qa: nat)
  {
    !TestBit(qa, 10) && !TestBit(qa, 11)
  }

  /** A pixel of the normalised SR image: `band` divided by 10000 where SCL is present and usable. */
  function S2SrPixel(img: Image<nat>, i: nat, band: string): Option<real>
    requires Shaped(img) && i < |img.pixels| && "SCL" in img.bands && band in img.bands
  {
    match Value(img, i, "SCL")
    case Some(c) => if SrClassUsable(c) then MapOption(Value(img, i, band), S2Reflectance) else None
    case None => None
  }

  /** A pixel of the normalised TOA image: `band` divided by 10000 where QA60 is present and usable. */
  function S2ToaPixel(img: Image<nat>, i: nat, band: string): Option<real>
    requires Shaped(img) && i < |img.pixels| && "QA60" in img.bands && band in img.bands
  {
    match Value(img, i, "QA60")
    case Some(q) => if ToaUsable(q) then MapOption(Value(img, i, band), S2Reflectance) else None
    case None => None
  }

  const S2SrInputBands: seq<string> := ["SCL", "B2", "B3", "B4", "B8"]

  /**
    `maskS2_SCL`: B2, B3, B4, B8 divided by 10000 and renamed; a pixel is kept
    exactly when its SCL class is one of 4, 5, 6, 7, 11.
   */
  function MaskS2Scl(img: Image<nat>): (r: Image<real>)
    requires HasBands(img, S2SrInputBands)
    ensures r.bands == S2CommonBands && |r.pixels| == |img.pixels| && Shaped(r)
    ensures forall i, j | 0 <= i < |r.pixels| && 0 <= j < |r.bands| ::
      r.pixels[i][j] == S2SrPixel(img, i, S2ReflectanceBands[j])
  {
    UpdateMask(S2Scaled(img), Classify(BandOf(img, "SCL"), SclKeep))
  }

  /** B2, B3, B4, B8 divided by 10000 and renamed to the common schema, before masking. */
  function S2Scaled(img: Image<nat>): (r: Image<real>)
    requires HasBands(img, S2ReflectanceBands)
    ensures r.bands == S2CommonBands && |r.pixels| == |img.pixels| && Shaped(r)
    ensures forall i, j | 0 <= i < |r.pixels| && 0 <= j < |r.bands| ::
      r.pixels[i][j] == MapOption(Value(img, i, S2ReflectanceBands[j]), S2Reflectance)
  {
    var r := Rename(Divide(Select(img, S2ReflectanceBands), 10000.0), S2CommonBands);
    assert forall i, j | 0 <= i < |r.pixels| && 0 <= j < |r.bands| ::
      r.pixels[i][j] == MapOption(Value(img, i, S2ReflectanceBands[j]), S2Reflectance)
    by {
      forall i, j | 0 <= i < |r.pixels| && 0 <= j < |r.bands|
        ensures r.pixels[i][j] == MapOption(Value(img, i, S2ReflectanceBands[j]), S2Reflectance)
      {
        assert r.pixels[i][j] == MapOption(Value(img, i, S2ReflectanceBands[j]), (v: nat) => v as real / 10000.0);
      }
    }
    r
  }

  const S2ToaInputBands: seq<string> := ["QA60", "B2", "B3", "B4", "B8"]

  /**
    `maskS2_QA60`: the same four bands, scaled and renamed the same way; a
    pixel is kept exactly when QA60 bits 10 and 11 are both clear.
   */
  function MaskS2Qa60(img: Image<nat>): (r: Image<real>)
    requires HasBands(img, S2ToaInputBands)
    ensures r.bands == S2CommonBands && |r.pixels| == |img.pixels| && Shaped(r)
    ensures forall i, j | 0 <= i < |r.pixels| && 0 <= j < |r.bands| ::
      r.pixels[i][j] == S2ToaPixel(img, i, S2ReflectanceBands[j])
  {
    var qa := BandOf(img, "QA60");
    ToaKeepBand(qa);
    UpdateMask(S2Scaled(img), Not(Classify(qa, Qa60Cloud)))
  }

  /** `cloud.not()` passes exactly the pixels whose QA60 is present with bits 10 and 11 clear. */
  lemma ToaKeepBand(qa: Band<nat>)
    ensures forall i | 0 <= i < |qa| ::
      Passes(Not(Classify(qa, Qa60Cloud))[i]) == (qa[i].Some? && ToaUsable(qa[i].value))
  {
    var cloud := Classify(qa, Qa60Cloud);
    forall i | 0 <= i < |qa|
      ensures Passes(Not(cloud)[i]) == (qa[i].Some? && ToaUsable(qa[i].value))
    {
      assert cloud[i] == MapOption(qa[i], (q: nat) => if Qa60Cloud(q) then 1 else 0);
    }
  }

  /** A Sentinel-2 archive image with its `CLOUDY_PIXEL_PERCENTAGE` property. */
  datatype Scene = Scene(image: Image<nat>, cloudyPixelPercentage: real)

  /** The pre-filter threshold: only scenes strictly below it pass. */
  const MaxCloudyPercentage: real := 80.0

  /** `filter(ee.Filter.lt('CLOUDY_PIXEL_PERCENTAGE', 80))`: keeps, in order, the scenes strictly below 80 %. */
  function FilterCloudy(c: seq<Scene>): (r: seq<Scene>)
    ensures |r| <= |c|
    ensures forall k | 0 <= k < |r| :: r[k].cloudyPixelPercentage < MaxCloudyPercentage && r[k] in c
  {
    if c == [] then []
    else
      var rest := FilterCloudy(c[..|c| - 1]);
      var last := c[|c| - 1];
      assert c == c[..|c| - 1] + [last];
      if last.cloudyPixelPercentage < MaxCloudyPercentage then rest + [last] else rest
  }

  /**
    The pre-filter keeps every scene strictly below 80 % as many times as it
    occurs, and drops every other scene.
   */
  lemma {:induction false} FilterCloudyCounts(c: seq<Scene>)
    ensures forall s ::
      multiset(FilterCloudy(c))[s] == if s.cloudyPixelPercentage < MaxCloudyPercentage then multiset(c)[s] else 0
  {
    if c != [] {
      var init, last := c[..|c| - 1], c[|c| - 1];
      FilterCloudyCounts(init);
      assert c == init + [last];
      assert multiset(c) == multiset(init) + multiset{last};
    }
  }

  /**
    The pre-filter keeps the order of the collection: filtering a collection
    made of two parts filters each part and keeps the first part's scenes first.
   */
  lemma {:induction false} FilterCloudyAppend(a: seq<Scene>, b: seq<Scene>)
    ensures FilterCloudy(a + b) == FilterCloudy(a) + FilterCloudy(b)
  {
    if b != [] {
      var n := |b| - 1;
      var last := b[n];
      var tail := if last.cloudyPixelPercentage < MaxCloudyPercentage then [last] else [];
      FilterCloudyAppend(a, b[..n]);
      var ab := a + b;
      assert ab[..|ab| - 1] == a + b[..n] && ab[|ab| - 1] == last;
      assert FilterCloudy(ab) == FilterCloudy(a + b[..n]) + tail;
      assert FilterCloudy(b) == FilterCloudy(b[..n]) + tail;
      assert FilterCloudy(a) + FilterCloudy(b) == (FilterCloudy(a) + FilterCloudy(b[..n])) + tail;
    } else {
      assert a + b == a;
    }
  }

  /** Scenes that all carry the bands the SR path reads. */
  predicate SrScenes(c: seq<Scene>)
  {
    forall k | 0 <= k < |c| :: HasBands(c[k].image, S2SrInputBands)
  }

  /** Scenes that all carry the bands the TOA path reads. */
  predicate ToaScenes(c: seq<Scene>)
  {
    forall k | 0 <= k < |c| :: HasBands(c[k].image, S2ToaInputBands)
  }

  /** The filtered SR collection, each image masked by SCL. */
  function SrCollection(sr: seq<Scene>): (r: seq<Image<real>>)
    requires SrScenes(sr)
    ensures |r| == |FilterCloudy(sr)|
    ensures forall k | 0 <= k < |r| :: r[k] == MaskS2Scl(FilterCloudy(sr)[k].image)
  {
    var f := FilterCloudy(sr);
    assert forall k | 0 <= k < |f| :: f[k] in sr;
    seq(|f|, k requires 0 <= k < |f| => MaskS2Scl(f[k].image))
  }

  /** The filtered TOA collection, each image masked by QA60. */
  function ToaCollection(toa: seq<Scene>): (r: seq<Image<real>>)
    requires ToaScenes(toa)
    ensures |r| == |FilterCloudy(toa)|
    ensures forall k | 0 <= k < |r| :: r[k] == MaskS2Qa60(FilterCloudy(toa)[k].image)
  {
    var f := FilterCloudy(toa);
    assert forall k | 0 <= k < |f| :: f[k] in toa;
    seq(|f|, k requires 0 <= k < |f| => MaskS2Qa60(f[k].image))
  }

  /**
    The choice made in `s2HybridComposite`: if any SR image survives the
    pre-filter, SR images followed by TOA images; otherwise the TOA images alone.
   */
  function S2HybridCollection(sr: seq<Scene>, toa: seq<Scene>): (r: seq<Image<real>>)
    requires SrScenes(sr) && ToaScenes(toa)
    ensures |FilterCloudy(sr)| > 0 ==> |r| == |FilterCloudy(sr)| + |FilterCloudy(toa)|
    ensures |FilterCloudy(sr)| > 0 ==>
      forall k | 0 <= k < |FilterCloudy(sr)| :: r[k] == MaskS2Scl(FilterCloudy(sr)[k].image)
    ensures |FilterCloudy(sr)| > 0 ==>
      forall k | 0 <= k < |FilterCloudy(toa)| :: r[|FilterCloudy(sr)| + k] == MaskS2Qa60(FilterCloudy(toa)[k].image)
    ensures |FilterCloudy(sr)| == 0 ==> r == ToaCollection(toa)
  {
    var s := SrCollection(sr);
    var t := ToaCollection(toa);
    if |s| > 0 then s + t else t
  }

  /** Whichever branch is taken, every image of the hybrid collection is in the common four-band schema. */
  lemma HybridSchemaUniform(sr: seq<Scene>, toa: seq<Scene>)
    requires SrScenes(sr) && ToaScenes(toa)
    ensures forall k | 0 <= k < |S2HybridCollection(sr, toa)| :: S2HybridCollection(sr, toa)[k].bands == S2CommonBands
  {
    var s := SrCollection(sr);
    var t := ToaCollection(toa);
    var r := S2HybridCollection(sr, toa);
    forall k | 0 <= k < |r|
      ensures r[k].bands == S2CommonBands
    {
      if |s| > 0 && k >= |s| {
        assert r[k] == t[k - |s|];
      }
    }
  }

  /** Every SR scene that passes the pre-filter reaches the hybrid collection, whatever the TOA scenes are. */
  lemma HybridKeepsEverySrScene(sr: seq<Scene>, toa: seq<Scene>, s: Scene)
    requires SrScenes(sr) && ToaScenes(toa)
    requires s in sr && s.cloudyPixelPercentage < MaxCloudyPercentage
    ensures MaskS2Scl(s.image) in S2HybridCollection(sr, toa)
  {
    var f := FilterCloudy(sr);
    FilterCloudyCounts(sr);
    assert multiset(f)[s] > 0;
    assert s in f;
    var k :| 0 <= k < |f| && f[k] == s;
    assert S2HybridCollection(sr, toa)[k] == MaskS2Scl(s.image);
  }
}
