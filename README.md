# River water masks and composites, modelled in Dafny

This project models the computational core of two Earth Engine scripts for rivers in Alabama.

- **Composite script** (`Scripts/Satellite_Images.js`):
  - Collection 2 Level-2 Landsat 5/7 images are scaled to surface reflectance and masked by their QA_PIXEL cloud, shadow and snow bits.
  - Sentinel-2 images are masked on one of two paths: by their SCL scene class (surface reflectance) or by their QA60 cloud bits (top of atmosphere).
  - The hybrid Sentinel-2 composite uses SR images followed by TOA images when any SR image passes the 80 % cloud pre-filter, and the TOA images alone otherwise.
- **Validation script** (`Scripts/WaterMasks_USGSgaugestation_Validation.js`):
  - Level-2A images are masked by SCL class.
  - The two AWEI variants give a seasonal AWEI layer. A season without images falls back to an all-masked layer.
  - The Dynamic World water probability is thresholded, and JRC occurrence gives a stable-water reference.
  - A seeded stratified sample of (reference, prediction) pairs is tabulated into a 2 x 2 error matrix. The metrics follow from it: overall accuracy, Cohen's Kappa, and precision, recall, F1 and IoU for the water class.
  - `processRiver` appends one metrics row per (year, season).

## How it is modelled

**Rasters.** An image lives on the pixel grid of the river's region. A pixel is `None` where it is masked.
- A multi-band image (`Raster.Image`) keeps its band names and one value per band for each pixel.
- A single-band layer is a `Band`.
- The raster operators are modelled pixel by pixel, with the service's masking rules:
  - a binary operator is masked where either operand is masked;
  - `updateMask` masks where the mask is masked or zero;
  - `gte`/`lte`/`eq`/`neq` give 0/1;
  - `unmask(v)` fills masked pixels with v;
  - `clip` masks what lies outside the region.
- Collections are sequences of images. Values are exact `real`s.

**Bit flags.** `bitwiseAnd` is computed bit by bit on naturals (`Bits.BitAnd`). `Bits.BitAndPow2` proves that and-ing with `1 << k` reads bit k.

**Effects and services.** The raster service's reducers and data are parameters:
- the per-pixel median;
- the Dynamic World composite of a date range;
- the JRC occurrence layer;
- the pixel order the seeded stratified sampler follows.

**Code versus description.** Where the scripts' behaviour differs from a natural reading of what they are for, the model follows the code:
- `scaleMaskLandsatC2` accepts any sensor name; every name other than "L5" selects the L7 band list, which is the same list.
- No row is written as null on a failed computation. The script records whatever the service returns. For F1 (line 180) and IoU (line 182) that is the result of `ee.Number.divide`, which is 0 for a zero divisor. The model returns `None` for any metric whose denominator is zero; this is a deliberate difference.
- The script's `awei_sh` computes the four-band formula 4(G − SW1) − (0.25 N + 2.75 SW2). Feyisa et al. (2014) publish that formula as the no-shadow index, and the five-band formula as the shadow index. The model keeps the script's names. The weight of SW1 in the five-band formula is listed under Findings. The seasonal pipeline (`WaterMasks.AweiFor`) uses the five-band formula as written (`WaterMasks.AweiNshAsWritten`); the published weighting (`WaterMasks.AweiNsh`) is only its corrected partner.
- `jrcStable` masks pixels whose occurrence lies strictly between 1 % and the threshold. The validation then applies `unmask(0)`, so those pixels enter the stratified sample as non-water (`RiverRun.AmbiguousBecomesLand`). The model keeps this behaviour.

## Model

| member | source | states |
|---|---|---|
| Bits.BitAndPow2 | Scripts/Satellite_Images.js:35-38 | `bitwiseAnd(1 << k)` yields `1 << k` when bit k is set and 0 otherwise |
| Bits.MaskTestIsBitTest | Scripts/Satellite_Images.js:35 | `bitwiseAnd(1 << k).eq(0)` holds exactly when bit k is clear |
| Bits.SetBitKeepsOthers | Scripts/Satellite_Images.js:35-38 | setting one clear bit sets it and leaves every other bit unchanged |
| SatelliteImages.LandsatReflectanceProperties | Scripts/Satellite_Images.js:26-31 | the Collection 2 scaling DN·0.0000275 − 0.2 is strictly increasing, maps DN 0 to −0.2, and is inverted by (r + 0.2)/0.0000275 |
| SatelliteImages.QaPixelClear | Scripts/Satellite_Images.js:34-38 | the four `bitwiseAnd(..).eq(0)` tests pass exactly when QA_PIXEL bits 1, 3, 4 and 5 are all clear |
| SatelliteImages.LandsatMaskIgnoresOtherBits | Scripts/Satellite_Images.js:35-38 | setting any QA_PIXEL bit other than 1, 3, 4, 5 never changes whether a pixel is kept |
| SatelliteImages.ScaleMaskLandsatC2 | Scripts/Satellite_Images.js:25-41 | the result has bands blue…swir2; each pixel is the selected SR band scaled to reflectance where QA_PIXEL is present and usable, and masked otherwise |
| SatelliteImages.LandsatSensorIndependent | Scripts/Satellite_Images.js:27-29 | the sensor name does not change the result: L5 and L7 images are scaled and masked identically |
| SatelliteImages.ScaleMaskAll | Scripts/Satellite_Images.js:46 | mapping the scaling over a collection keeps its size and order |
| SatelliteImages.Landsat2000Collection | Scripts/Satellite_Images.js:43-52 | the merged collection is the L5 images followed by the L7 images, each scaled and masked, all in the common six-band schema |
| SatelliteImages.Qa60Cloud | Scripts/Satellite_Images.js:70 | a QA60 value is cloudy exactly when bit 10 or bit 11 is set |
| SatelliteImages.MaskS2Scl | Scripts/Satellite_Images.js:60-66 | the result has bands blue, green, red, nir; each pixel is B2/B3/B4/B8 divided by 10000 where the SCL class is present and one of 4, 5, 6, 7, 11, and masked otherwise |
| SatelliteImages.MaskS2Qa60 | Scripts/Satellite_Images.js:68-74 | same schema and scaling; a pixel is kept exactly when QA60 is present with bits 10 and 11 both clear |
| SatelliteImages.FilterCloudy | Scripts/Satellite_Images.js:79 | every kept scene is from the collection and strictly below 80 % cloudy pixels |
| SatelliteImages.FilterCloudyCounts | Scripts/Satellite_Images.js:79 | each scene strictly below 80 % is kept as many times as it occurs, and every other scene is dropped |
| SatelliteImages.FilterCloudyAppend | Scripts/Satellite_Images.js:79 | filtering keeps the collection's order: filtering a + b gives the filtered a followed by the filtered b |
| SatelliteImages.SrCollection | Scripts/Satellite_Images.js:77-80 | the SR path is the filtered scenes, each masked by SCL |
| SatelliteImages.ToaCollection | Scripts/Satellite_Images.js:82-85 | the TOA path is the filtered scenes, each masked by QA60 |
| SatelliteImages.S2HybridCollection | Scripts/Satellite_Images.js:87-92 | with any filtered SR image: SR images then TOA images, with those sizes and in that order; with none: the TOA images alone |
| SatelliteImages.HybridSchemaUniform | Scripts/Satellite_Images.js:87-92 | in either branch every image of the hybrid collection has the same four bands |
| SatelliteImages.HybridKeepsEverySrScene | Scripts/Satellite_Images.js:87-92 | every SR scene under 80 % cloud reaches the hybrid collection, whatever the TOA scenes are |
| WaterMasks.MaskS2SR | Scripts/WaterMasks_USGSgaugestation_Validation.js:87-93 | every band is kept where SCL is present and not in {0, 1, 3, 8, 9, 10, 11}, and masked otherwise |
| WaterMasks.SclRulesDiffer | Scripts/WaterMasks_USGSgaugestation_Validation.js:89-91 | over SCL classes 0–11 this rule and the composite script's rule disagree exactly on class 2 and class 11 |
| WaterMasks.AweiSh | Scripts/WaterMasks_USGSgaugestation_Validation.js:94-98 | reads only B3, B8, B11 and B12: defined exactly where those four are present, whatever B2 is, and equal to (16 G − 16 SW1 − N − 11 SW2)/40000 on digital numbers |
| WaterMasks.AweiNshAsWritten | Scripts/WaterMasks_USGSgaugestation_Validation.js:99-103 | the five-band index as written: (4 B + 10 G − 6 N − 4 SW1 − SW2)/40000 on digital numbers, defined where all inputs are present |
| WaterMasks.AweiNsh | Scripts/WaterMasks_USGSgaugestation_Validation.js:99-103 | the five-band index with the published SW1 weight: (4 B + 10 G − 6 N − 6 SW1 − SW2)/40000 |
| WaterMasks.NshSwir1WeightDiffers | Scripts/WaterMasks_USGSgaugestation_Validation.js:102 | SW1 reflectance 0.1 alone gives −0.1 as written against −0.15 published |
| WaterMasks.NshVersionsAgreeIffNoSwir1 | Scripts/WaterMasks_USGSgaugestation_Validation.js:99-103 | the two five-band formulas agree at a pixel exactly when its SW1 value is zero |
| WaterMasks.AweiFor | Scripts/WaterMasks_USGSgaugestation_Validation.js:109 | "AWEI_sh" selects `awei_sh`, and every other name the five-band index exactly as written; the result is defined exactly where the selected variant's bands are present |
| WaterMasks.MaskedAwei | Scripts/WaterMasks_USGSgaugestation_Validation.js:105-110 | each pixel is the variant's index of the unmasked image where the SCL class is present and usable, and masked elsewhere |
| WaterMasks.BuildAweiSeason | Scripts/WaterMasks_USGSgaugestation_Validation.js:104-116 | count is the image count; with images the index is the clipped median of the per-image indices, with none it is masked everywhere; the water mask is 1 at or above the threshold, 0 below, masked where the index is |
| WaterMasks.DwBinary | Scripts/WaterMasks_USGSgaugestation_Validation.js:77 | 1 where the probability reaches the threshold, 0 below it, masked where the probability is masked |
| WaterMasks.ThresholdIsInclusive | Scripts/WaterMasks_USGSgaugestation_Validation.js:77 | a value exactly at the threshold counts as water |
| WaterMasks.JrcStable | Scripts/WaterMasks_USGSgaugestation_Validation.js:79-84 | 1 where occurrence reaches the threshold, 0 where it is at most 1 (and below the threshold), masked in between and where occurrence is masked |
| WaterMasks.JrcTriStateAt50 | Scripts/WaterMasks_USGSgaugestation_Validation.js:79-84 | with the threshold 50: land at ≤ 1 %, water at ≥ 50 %, excluded strictly between |
| WaterMasks.Disagreement | Scripts/WaterMasks_USGSgaugestation_Validation.js:193 | 1 exactly where both masks are present and differ; masked everywhere else |
| WaterMasks.WaterOnly | Scripts/WaterMasks_USGSgaugestation_Validation.js:192 | the exported AWEI mask keeps the water pixels and masks every other pixel |
| WaterMasks.UnmaskedIsBinary | Scripts/WaterMasks_USGSgaugestation_Validation.js:170-171 | after `unmask(0)` a 0/1 mask is defined everywhere, and is 1 exactly where it was 1 |
| Accuracy.Tabulate | Scripts/WaterMasks_USGSgaugestation_Validation.js:128 | over 0/1 samples the four cells sum to the sample count, and each row to the number of samples of that reference class |
| Accuracy.CellsCountPairs | Scripts/WaterMasks_USGSgaugestation_Validation.js:128 | each cell is the number of samples carrying its (reference, prediction) pair |
| Accuracy.TabulateOrderFree | Scripts/WaterMasks_USGSgaugestation_Validation.js:128 | the matrix depends only on which samples were drawn, not on their order |
| Accuracy.StratifiedSample | Scripts/WaterMasks_USGSgaugestation_Validation.js:120-127 | every drawn pixel is in the region and 0/1 in both layers; the draw is a sub-multiset of the seeded order; each class gets min(nPerClass, its sampleable pixel count) points |
| Accuracy.RefCountIsClassCount | Scripts/WaterMasks_USGSgaugestation_Validation.js:119-128 | the matrix's reference rows count the drawn pixels of each stratum |
| Accuracy.StratifiedValidate | Scripts/WaterMasks_USGSgaugestation_Validation.js:118-130 | the samples are the (reference, prediction) pairs read at the stratified draw, and the matrix is their tabulation; each reference row holds min(nPerClass, available) samples; at most 2·nPerClass samples in all |
| Accuracy.OverallAccuracy | Scripts/WaterMasks_USGSgaugestation_Validation.js:176 | defined exactly when there are samples; in [0, 1]; equal to 1 exactly when nothing is misclassified |
| Accuracy.Recall | Scripts/WaterMasks_USGSgaugestation_Validation.js:178 | tp/(tp + fn), defined exactly when there are reference water samples; in [0, 1]; 1 iff fn = 0, 0 iff tp = 0 |
| Accuracy.Precision | Scripts/WaterMasks_USGSgaugestation_Validation.js:179 | tp/(tp + fp), defined exactly when water was predicted; in [0, 1]; 1 iff fp = 0, 0 iff tp = 0 |
| Accuracy.F1Closed | Scripts/WaterMasks_USGSgaugestation_Validation.js:180 | with a true positive, 2PR/(P + R) equals 2 tp/(2 tp + fp + fn) |
| Accuracy.F1FromCounts | Scripts/WaterMasks_USGSgaugestation_Validation.js:180 | F1 is defined exactly when tp > 0, and is then 2 tp/(2 tp + fp + fn) |
| Accuracy.IoU | Scripts/WaterMasks_USGSgaugestation_Validation.js:181-182 | tp/(tp + fn + fp), defined exactly when that sum is positive, and in [0, 1] |
| Accuracy.IoUWithinF1 | Scripts/WaterMasks_USGSgaugestation_Validation.js:180-182 | with a true positive, 0 < IoU ≤ F1 ≤ 1 |
| Accuracy.KappaClosedForm | Scripts/WaterMasks_USGSgaugestation_Validation.js:177 | (po − pe)/(1 − pe) is defined exactly when there are samples and (tp+fp)(fp+tn) + (tp+fn)(fn+tn) ≠ 0, and then equals 2(tp·tn − fp·fn) over that sum |
| Accuracy.KappaBounds | Scripts/WaterMasks_USGSgaugestation_Validation.js:177 | Kappa lies in [−1, 1] and is 1 when nothing is misclassified |
| Accuracy.WorkedExample | Scripts/WaterMasks_USGSgaugestation_Validation.js:170-182 | for tp = 80, fp = 10, fn = 5, tn = 905: OA 0.985, precision 8/9, recall 16/17, F1 32/35, IoU 16/19, Kappa 1447/1597 |
| Calendar.NextDay | Scripts/WaterMasks_USGSgaugestation_Validation.js:155 | `advance(1, 'day')` gives a valid, strictly later date |
| Calendar.NextDayIsSuccessor | Scripts/WaterMasks_USGSgaugestation_Validation.js:155 | a valid date is before the next day of d exactly when it is not after d |
| Calendar.InclusiveWindow | Scripts/WaterMasks_USGSgaugestation_Validation.js:155 | filtering on [first, last + 1 day) keeps exactly the dates from first to last inclusive, both ends included |
| RiverRun.SeasonWindow | Scripts/WaterMasks_USGSgaugestation_Validation.js:42-63 | every window is a valid, non-empty date range within its year |
| RiverRun.SeasonsDisjoint | Scripts/WaterMasks_USGSgaugestation_Validation.js:42-63 | no date falls in both the dry and the wet window of a year |
| RiverRun.Prediction01 | Scripts/WaterMasks_USGSgaugestation_Validation.js:160-170 | the prediction layer is 0/1 everywhere and 1 exactly where the DW probability is present and at least 0.5 |
| RiverRun.Reference01 | Scripts/WaterMasks_USGSgaugestation_Validation.js:167-171 | the reference layer is 0/1 everywhere and 1 exactly where JRC occurrence is present and at least 50 |
| RiverRun.AmbiguousBecomesLand | Scripts/WaterMasks_USGSgaugestation_Validation.js:171 | a pixel that `jrcStable` excludes (1 < occurrence < 50) is sampled as non-water after `unmask(0)` |
| RiverRun.WindowValidation | Scripts/WaterMasks_USGSgaugestation_Validation.js:155-172 | one window validates the DW prediction of the images dated from the first day up to the day after the last against the JRC reference, on the corridor, with the seeded order of that window; each reference class gets min(2000, available) samples, at most 4000 in all |
| RiverRun.WindowRow | Scripts/WaterMasks_USGSgaugestation_Validation.js:198-204 | the row carries the river, year, season name, the window's first and last day and the two thresholds; its matrix and sample count are those of that window's validation, and nSamples = matrix total ≤ 4000 |
| RiverRun.RowMetricsInRange | Scripts/WaterMasks_USGSgaugestation_Validation.js:176-182 | OA is missing exactly when there are no samples; OA, precision, recall in [0, 1]; Kappa in [−1, 1]; a positive IoU never exceeds F1 |
| RiverRun.SeasonRowsIndex | Scripts/WaterMasks_USGSgaugestation_Validation.js:153 | a year contributes one row per season, in season order |
| RiverRun.RiverRowsLength | Scripts/WaterMasks_USGSgaugestation_Validation.js:152-153 | a run has one row per (year, season) pair: the number of years times the number of seasons |
| RiverRun.RiverRowsAt | Scripts/WaterMasks_USGSgaugestation_Validation.js:152-153 | the row of year i and season j is at position i·S + j, where S is the number of seasons |
| RiverRun.CollectRows | Scripts/WaterMasks_USGSgaugestation_Validation.js:150-211 | the nested year and season loops build exactly the year-major table of rows |
| RiverRun.ProcessRiver | Scripts/WaterMasks_USGSgaugestation_Validation.js:140-214 | a river's metrics table is the year-major table of window rows, six rows in all |
| RiverRun.SixRows | Scripts/WaterMasks_USGSgaugestation_Validation.js:16-17 | with years 2016, 2020, 2024 and seasons dry, wet the rows come in the order 2016 dry, 2016 wet, …, 2024 wet |

## Left out

- Geometry and collection queries: corridor geometry, buffers, `filterBounds`, and the loading of collections from the catalogue. The model receives the images already restricted to the region; `clip` is modelled as restriction to the region's grid of pixels.
- The per-pixel median and the Dynamic World composite are parameters, because they are reducers of the raster service.
- The random order of `stratifiedSample` with seed 42 is a parameter. The model fixes which pixels are drawn given that order; the service's own shuffling is not modelled. Its `scale`/`geometries` options are not modelled.
- Date strings such as '2016-08-01' are written as `Calendar.Date` values; string parsing is not modelled.
- Exports to Drive, `Map.addLayer`, `print` and `copyProperties` are left out: they are output with no effect on the computed values. The layers exported per window are modelled as functions: `WaterMasks.Disagreement`, `WaterMasks.WaterOnly` and the DW mask `WaterMasks.DwBinary`. The images the composite script exports are its composites.
- Floating point: all values are exact reals. Rounding of the service's 32/64-bit arithmetic is not modelled.
- Zero denominators: where the script records the service's value (0 for F1 and IoU from `ee.Number.divide`), the model returns `None`. The service's accuracy, Kappa, producers' and consumers' accuracy for an empty class are not modelled.
- Accuracy.StratifiedSample: the seeded pixel order is an input and may repeat a pixel. The model then draws that pixel twice, whereas the service samples without replacement; the model does not state that the order is duplicate-free.
- An error matrix with only one class present: the service then builds a 1 x 1 matrix, and `get([1,1])` would fail. The model always uses the 2 x 2 matrix with zero counts.
- `RIVERS_TO_RUN.forEach(processRiver)` and the summary CSV are not modelled separately; `RiverRun.ProcessRiver` gives one river's table.
- The AWEI computation inside `processRiver` (buildAWEISeason, the disagreement layer) only feeds exports and printed counts, never a row; it is modelled by `WaterMasks.BuildAweiSeason` and `WaterMasks.Disagreement` but not called from `RiverRun.ProcessRiver`.
- `coverageMask`, `maybeReproject10m` and the visualisation parameters of the composite script are display only.
- `RiverRun.WindowRow`: the row stores the window's error matrix, and the metric columns are the member functions `OA`, `Kappa`, `PrecisionWater`, `RecallWater`, `F1Water` and `IoUWater` of the row. Their values are the functions of `Accuracy`, as in the script.

## Findings

| source | as written | input that shows it | evidently intended | confidence | as-written member | corrected member |
|---|---|---|---|---|---|---|
| Scripts/WaterMasks_USGSgaugestation_Validation.js:102 | the five-band AWEI subtracts 1.5·N + SW1 + 0.25·SW2, weighting SW1 by 1 | reflectances B = G = N = SW2 = 0, SW1 = 0.1 give −0.1; the published index gives −0.15 | B + 2.5·G − 1.5·(N + SW1) − 0.25·SW2 (Feyisa et al., 2014) | medium, not executed | WaterMasks.AweiNshAsWritten, WaterMasks.NshSwir1WeightDiffers | WaterMasks.AweiNsh |
