/**
 * The anti-spoof fusion rule: a 3:4 aspect gate, a face-box gate, then one
 * prediction per model in the model directory, summed, and the arg-max of the
 * sum decides whether the face is real (label 1).
 */
module AntiSpoof {
  import opened Wrappers
  import opened Vision

  /** Scores over the labels 0 (fake), 1 (real) and 2 (other), as a classifier returns them. */
  type Scores = s: seq<real> | |s| == 3 witness [0.0, 0.0, 0.0]

  /** The accumulator's starting value, `np.zeros((1, 3))`. */
  const Zero: Scores := [0.0, 0.0, 0.0]

  /** A detected face box: x, y, width (`[2]`) and height (`[3]`). */
  datatype BBox = BBox(x: int, y: int, w: int, h: int)

  /** What `parse_model_name` reads off a model file name. */
  datatype ModelSpec = ModelSpec(hInput: int, wInput: int, kind: string, scale: Option<real>)

  /** The keyword arguments handed to `CropImage.crop`. */
  datatype CropParams = CropParams(orgImg: Frame, bbox: BBox, scale: Option<real>, outW: int, outH: int, crop: bool)

  /** The crop fed to one classifier; its pixels are opaque. */
  datatype Patch = Patch(pixels: seq<int>)

  /**
   * The collaborators the fusion rule calls but does not define: the face-box
   * detector, the model-name parser, the cropper and the per-model predictor
   * (which takes the model's path).
   */
  datatype Models = Models(
    getBbox: Frame -> Option<BBox>,
    parseModelName: string -> ModelSpec,
    crop: CropParams -> Patch,
    predict: (Patch, string) -> Scores)

  /** One call into a collaborator, recorded in the order the fusion rule makes them. */
  datatype Call = DetectBox(image: Frame) | CropPatch(params: CropParams) | Predict(patch: Patch, modelPath: string)

  /** `check_image`: the frame is exactly 3 wide for every 4 high. */
  predicate CheckImage(image: Frame)
  {
    4 * image.width == 3 * image.height
  }

  lemma CheckImageMeansThreeQuarters(image: Frame)
    ensures CheckImage(image) <==> (image.width as real) / (image.height as real) == 3.0 / 4.0
  {
    var w, h := image.width as real, image.height as real;
    assert (w / h) * h == w;
    if (w / h) == 3.0 / 4.0 {
      assert w == 3.0 / 4.0 * h;
    }
  }

  /** The detector found a box with positive width and height. */
  predicate UsableBox(bbox: Option<BBox>)
  {
    bbox.Some? && bbox.value.w > 0 && bbox.value.h > 0
  }

  /** The crop parameters built for one model: cropping is switched off exactly when the model has no scale. */
  function CropFor(image: Frame, bbox: BBox, spec: ModelSpec): CropParams
  {
    CropParams(image, bbox, spec.scale, spec.wInput, spec.hInput, spec.scale.Some?)
  }

  /** The scores one listed model contributes. */
  function ModelScores(m: Models, image: Frame, bbox: BBox, dir: string, name: string): Scores
  {
    m.predict(m.crop(CropFor(image, bbox, m.parseModelName(name))), JoinPath(dir, name))
  }

  function Add(a: Scores, b: Scores): Scores
  {
    [a[0] + b[0], a[1] + b[1], a[2] + b[2]]
  }

  /** The element-wise sum of one prediction per listed model, starting from zeros. */
  function Total(m: Models, image: Frame, bbox: BBox, dir: string, names: seq<string>): Scores
    decreases |names|
  {
    if names == [] then Zero
    else Add(Total(m, image, bbox, dir, names[..|names| - 1]), ModelScores(m, image, bbox, dir, names[|names| - 1]))
  }

  /** The crop and predict calls made for the listed models, two per model, in listing order. */
  ghost function ModelCalls(m: Models, image: Frame, bbox: BBox, dir: string, names: seq<string>): (calls: seq<Call>)
    ensures |calls| == 2 * |names|
    decreases |names|
  {
    if names == [] then []
    else
      var name := names[|names| - 1];
      var p := CropFor(image, bbox, m.parseModelName(name));
      ModelCalls(m, image, bbox, dir, names[..|names| - 1]) + [CropPatch(p), Predict(m.crop(p), JoinPath(dir, name))]
  }

  /** `np.argmax` over three scores: the first index holding the maximum. */
  function ArgMax(s: Scores): (k: nat)
    ensures k < 3
    ensures forall j :: 0 <= j < 3 ==> s[j] <= s[k]
    ensures forall j :: 0 <= j < k ==> s[j] < s[k]
  {
    if s[0] >= s[1] && s[0] >= s[2] then 0
    else if s[1] >= s[2] then 1
    else 2
  }

  /** The real label beats the fake label outright and is not beaten by the other label. */
  predicate LiveWins(total: Scores)
  {
    total[1] > total[0] && total[1] >= total[2]
  }

  /** The returned verdict: 1 when the arg-max of the summed scores is label 1, else 0. */
  function Verdict(total: Scores): (verdict: int)
    ensures verdict == 0 || verdict == 1
    ensures verdict == 1 <==> LiveWins(total)
  {
    if ArgMax(total) == 1 then 1 else 0
  }

  /** The score that is reported beside the verdict: half of the winning sum. It never feeds the verdict. */
  function Confidence(total: Scores): (value: real)
    ensures forall j :: 0 <= j < 3 ==> total[j] <= 2.0 * value
    ensures exists j :: 0 <= j < 3 && total[j] == 2.0 * value
  {
    total[ArgMax(total)] / 2.0
  }

  /** What `test` returns for a frame, a model directory and its listing. */
  function Liveness(m: Models, image: Frame, dir: string, listing: seq<string>): (verdict: int)
    ensures verdict == 0 || verdict == 1
    ensures verdict == 1 <==>
      CheckImage(image) && UsableBox(m.getBbox(image)) &&
      LiveWins(Total(m, image, m.getBbox(image).value, dir, listing))
  {
    if !CheckImage(image) then 0
    else
      var bbox := m.getBbox(image);
      if !UsableBox(bbox) then 0
      else Verdict(Total(m, image, bbox.value, dir, listing))
  }

  /**
   * `test`: the aspect gate, then the box gate, then one crop and one prediction
   * per listed model, accumulated in place. `calls` records which collaborators
   * were consulted, in order.
   */
  method Test(image: Frame, modelDir: string, listing: seq<string>, m: Models) returns (verdict: int, ghost calls: seq<Call>)
    ensures verdict == Liveness(m, image, modelDir, listing)
    ensures !CheckImage(image) ==> verdict == 0 && calls == []
    ensures CheckImage(image) && !UsableBox(m.getBbox(image)) ==> verdict == 0 && calls == [DetectBox(image)]
    ensures CheckImage(image) && UsableBox(m.getBbox(image)) ==>
      calls == [DetectBox(image)] + ModelCalls(m, image, m.getBbox(image).value, modelDir, listing)
  {
    if !CheckImage(image) {
      return 0, [];
    }
    var imageBbox := m.getBbox(image);
    calls := [DetectBox(image)];
    if imageBbox.None? || imageBbox.value.w <= 0 || imageBbox.value.h <= 0 {
      return 0, calls;
    }
    var bbox := imageBbox.value;
    var prediction := new real[3](_ => 0.0);
    for i := 0 to |listing|
      invariant prediction[..] == Total(m, image, bbox, modelDir, listing[..i])
      invariant calls == [DetectBox(image)] + ModelCalls(m, image, bbox, modelDir, listing[..i])
    {
      var modelName := listing[i];
      var spec := m.parseModelName(modelName);
      var param := CropParams(image, bbox, spec.scale, spec.wInput, spec.hInput, true);
      if spec.scale.None? {
        param := param.(crop := false);
      }
      var img := m.crop(param);
      var path := JoinPath(modelDir, modelName);
      var p := m.predict(img, path);
      calls := calls + [CropPatch(param), Predict(img, path)];
      ghost var before := prediction[..];
      prediction[0], prediction[1], prediction[2] := prediction[0] + p[0], prediction[1] + p[1], prediction[2] + p[2];
      assert prediction[..] == Add(before, p);
      PrefixStep(m, image, bbox, modelDir, listing, i);
    }
    assert listing[..|listing|] == listing;
    var total: Scores := prediction[..];
    assert total == Total(m, image, bbox, modelDir, listing);
    verdict := if ArgMax(total) == 1 then 1 else 0;
  }

  /** Extending the prefix by one model adds that model's scores and its two calls. */
  lemma PrefixStep(m: Models, image: Frame, bbox: BBox, dir: string, names: seq<string>, i: nat)
    requires i < |names|
    ensures Total(m, image, bbox, dir, names[..i + 1]) == Add(Total(m, image, bbox, dir, names[..i]), ModelScores(m, image, bbox, dir, names[i]))
    ensures var p := CropFor(image, bbox, m.parseModelName(names[i]));
            ModelCalls(m, image, bbox, dir, names[..i + 1]) ==
            ModelCalls(m, image, bbox, dir, names[..i]) + [CropPatch(p), Predict(m.crop(p), JoinPath(dir, names[i]))]
  {
    assert names[..i + 1][..i] == names[..i];
  }

  lemma AddZero(a: Scores)
    ensures Add(Zero, a) == a && Add(a, Zero) == a
  {
    assert Add(Zero, a)[0] == a[0] && Add(Zero, a)[1] == a[1] && Add(Zero, a)[2] == a[2];
  }

  /** Summing two listings one after the other is summing their totals. */
  lemma {:induction false} TotalAppend(m: Models, image: Frame, bbox: BBox, dir: string, a: seq<string>, b: seq<string>)
    ensures Total(m, image, bbox, dir, a + b) == Add(Total(m, image, bbox, dir, a), Total(m, image, bbox, dir, b))
    decreases |b|
  {
    if b == [] {
      assert a + b == a;
      AddZero(Total(m, image, bbox, dir, a));
    } else {
      var b' := b[..|b| - 1];
      assert (a + b)[..|a + b| - 1] == a + b';
      assert (a + b)[|a + b| - 1] == b[|b| - 1];
      TotalAppend(m, image, bbox, dir, a, b');
    }
  }

  /** Taking one model out of a listing takes its scores out of the total. */
  lemma TotalWithout(m: Models, image: Frame, bbox: BBox, dir: string, b: seq<string>, k: nat)
    requires k < |b|
    ensures Total(m, image, bbox, dir, b) == Add(Total(m, image, bbox, dir, b[..k] + b[k + 1..]), ModelScores(m, image, bbox, dir, b[k]))
  {
    var left, right, x := b[..k], b[k + 1..], b[k];
    var sx := ModelScores(m, image, bbox, dir, x);
    assert b == (left + [x]) + right;
    assert [x][..0] == [];
    AddZero(sx);
    assert Total(m, image, bbox, dir, [x]) == sx;
    TotalAppend(m, image, bbox, dir, left + [x], right);
    TotalAppend(m, image, bbox, dir, left, [x]);
    TotalAppend(m, image, bbox, dir, left, right);
  }

  /** The directory listing's order does not change the summed scores, hence not the verdict. */
  lemma {:induction false} TotalOrderIndependent(m: Models, image: Frame, bbox: BBox, dir: string, a: seq<string>, b: seq<string>)
    requires multiset(a) == multiset(b)
    ensures Total(m, image, bbox, dir, a) == Total(m, image, bbox, dir, b)
    decreases |a|
  {
    if a == [] {
      assert |b| == |multiset(b)| == 0;
    } else {
      var x := a[|a| - 1];
      var a' := a[..|a| - 1];
      assert a == a' + [x];
      assert x in multiset(b);
      var k :| 0 <= k < |b| && b[k] == x;
      var rest := b[..k] + b[k + 1..];
      assert b == b[..k] + [x] + b[k + 1..];
      assert multiset(a') == multiset(a) - multiset{x};
      assert multiset(rest) == multiset(b) - multiset{x};
      TotalOrderIndependent(m, image, bbox, dir, a', rest);
      TotalWithout(m, image, bbox, dir, b, k);
    }
  }

  /** The i-th listed model gets a crop built from its parsed sizes and scale, then a prediction under its path. */
  lemma {:induction false} ModelCallsAt(m: Models, image: Frame, bbox: BBox, dir: string, names: seq<string>, i: nat)
    requires i < |names|
    ensures var spec := m.parseModelName(names[i]);
            var p := CropParams(image, bbox, spec.scale, spec.wInput, spec.hInput, spec.scale != None);
            ModelCalls(m, image, bbox, dir, names)[2 * i] == CropPatch(p) &&
            ModelCalls(m, image, bbox, dir, names)[2 * i + 1] == Predict(m.crop(p), JoinPath(dir, names[i]))
    decreases |names|
  {
    if i < |names| - 1 {
      var init := names[..|names| - 1];
      ModelCallsAt(m, image, bbox, dir, init, i);
    }
  }

  /** With no model listed the sum stays at zeros and the frame is judged fake. */
  lemma EmptyListingIsSpoof(m: Models, image: Frame, dir: string)
    ensures Liveness(m, image, dir, []) == 0
  {
  }

  /** A tie between the fake and the real label goes to the lower index, fake. */
  lemma TieBreaksTowardFake(total: Scores)
    requires total[0] == total[1]
    ensures ArgMax(total) != 1 && Verdict(total) == 0
  {
  }

  /** Two models each scoring [0, 2, 0] sum to [0, 4, 0]: label 1 with confidence 2. */
  lemma TwoAgreeingModels(m: Models, image: Frame, bbox: BBox, dir: string, first: string, second: string)
    requires ModelScores(m, image, bbox, dir, first) == [0.0, 2.0, 0.0]
    requires ModelScores(m, image, bbox, dir, second) == [0.0, 2.0, 0.0]
    ensures Total(m, image, bbox, dir, [first, second]) == [0.0, 4.0, 0.0]
    ensures Verdict([0.0, 4.0, 0.0]) == 1 && Confidence([0.0, 4.0, 0.0]) == 2.0
  {
    assert [first, second][..1] == [first];
    assert [first][..0] == [];
    assert Total(m, image, bbox, dir, [first]) == Add(Zero, [0.0, 2.0, 0.0]);
  }
}
