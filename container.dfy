/** The policy container: registry lookup, random policy selection and the
    gated sequential pipeline `apply_augmentation`.

    The augmentation operations, imgaug's `remove_out_of_image` and
    `clip_out_of_image`, and the random sources are not part of this model:
    the operations are a registry of function values, the two box
    operations a pair of function values, and the random numbers explicit
    inputs. */
module Container {
  import opened Exceptions
  import opened Boxes
  import opened Catalogue

  /** What an operation factory is called with: the step's magnitude, and
      for Cutout and BBox_Cutout also the current image's height and width. */
  datatype FactoryArgs =
    | Magnitude(magnitude: int)
    | MagnitudeAndShape(magnitude: int, height: nat, width: nat)

  /** A constructed augmentation: `aug(image=..., bounding_boxes=...)`. */
  type Augmenter = (Image, BoxSet) -> (Image, BoxSet)

  /** An entry of `NAME_TO_AUGMENTATION`. */
  type Factory = FactoryArgs -> Augmenter

  type Registry = map<string, Factory>

  /** imgaug's `BoundingBoxesOnImage.remove_out_of_image` and `clip_out_of_image`. */
  datatype BoxOps = BoxOps(removeOutOfImage: BoxSet -> BoxSet, clipOutOfImage: BoxSet -> BoxSet)

  /** What happened at one step: skipped, or run after calling the named
      factory with `args`. */
  datatype Event = Skipped | Ran(name: string, args: FactoryArgs)

  /** The result of running a policy: the final image and boxes with one
      event per step, or the name of the unregistered operation that
      raised KeyError at step `at`. */
  datatype Outcome =
    | Finished(image: Image, bbs: BoxSet, events: seq<Event>)
    | Failed(name: string, at: nat)

  /** A step fires when its draw from `np.random.random()` is below its probability. */
  predicate Fires(s: Step, draw: real) {
    draw < s.probability
  }

  function ArgsFor(s: Step, image: Image): FactoryArgs {
    if s.name == "Cutout" || s.name == "BBox_Cutout" then
      MagnitudeAndShape(s.magnitude, image.height, image.width)
    else
      Magnitude(s.magnitude)
  }

  /** Adds the events of earlier steps in front of an outcome. */
  function Prepend(evs: seq<Event>, o: Outcome): Outcome {
    match o
    case Finished(image, bbs, events) => Finished(image, bbs, evs + events)
    case Failed(name, at) => Failed(name, at + |evs|)
  }

  /** Runs `policy` on `image` and `bbs`; step `i` reads `draws[i]`. */
  function Run(reg: Registry, ops: BoxOps, policy: Policy, draws: seq<real>, image: Image, bbs: BoxSet): (o: Outcome)
    requires |draws| >= |policy|
    ensures o.Failed? ==> o.at < |policy|
    decreases |policy|
  {
    if |policy| == 0 then Finished(image, bbs, [])
    else
      var s := policy[0];
      if !Fires(s, draws[0]) then
        Prepend([Skipped], Run(reg, ops, policy[1..], draws[1..], image, bbs))
      else if s.name !in reg then
        Failed(s.name, 0)
      else
        var args := ArgsFor(s, image);
        var out := reg[s.name](args)(image, bbs);
        var pruned := ops.clipOutOfImage(ops.removeOutOfImage(out.1));
        Prepend([Ran(s.name, args)], Run(reg, ops, policy[1..], draws[1..], out.0, pruned))
  }

  /** Continues an outcome with the steps of `policy`. */
  function Continue(reg: Registry, ops: BoxOps, o: Outcome, policy: Policy, draws: seq<real>): Outcome
    requires |draws| >= |policy|
  {
    match o
    case Finished(image, bbs, events) => Prepend(events, Run(reg, ops, policy, draws, image, bbs))
    case Failed(_, _) => o
  }

  /** How many draws a run takes from the random source. */
  function DrawsUsed(o: Outcome, steps: nat): nat {
    match o
    case Finished(_, _, _) => steps
    case Failed(_, at) => at + 1
  }

  lemma PrependNil(o: Outcome)
    ensures Prepend([], o) == o
  {
    match o
    case Finished(image, bbs, events) => assert [] + events == events;
    case Failed(_, _) =>
  }

  lemma PrependPrepend(a: seq<Event>, b: seq<Event>, o: Outcome)
    ensures Prepend(a, Prepend(b, o)) == Prepend(a + b, o)
  {
    match o
    case Finished(image, bbs, events) => assert a + (b + events) == (a + b) + events;
    case Failed(_, _) =>
  }

  /** Running `p1 + p2` is running `p1` and then, unless it raised, running
      `p2` on the image and boxes it produced, with the draws that follow. */
  lemma {:induction false} RunAppend(reg: Registry, ops: BoxOps, p1: Policy, p2: Policy, draws: seq<real>,
                                     image: Image, bbs: BoxSet)
    requires |draws| >= |p1| + |p2|
    ensures Run(reg, ops, p1 + p2, draws, image, bbs) ==
            Continue(reg, ops, Run(reg, ops, p1, draws, image, bbs), p2, draws[|p1|..])
  {
    if |p1| == 0 {
      assert p1 + p2 == p2;
      assert draws[|p1|..] == draws;
      PrependNil(Run(reg, ops, p2, draws, image, bbs));
    } else {
      var s := p1[0];
      assert (p1 + p2)[0] == s;
      assert (p1 + p2)[1..] == p1[1..] + p2;
      assert draws[1..][|p1| - 1..] == draws[|p1|..];
      if !Fires(s, draws[0]) {
        RunAppend(reg, ops, p1[1..], p2, draws[1..], image, bbs);
        var o := Run(reg, ops, p1[1..], draws[1..], image, bbs);
        if o.Finished? {
          PrependPrepend([Skipped], o.events, Run(reg, ops, p2, draws[|p1|..], o.image, o.bbs));
        }
      } else if s.name in reg {
        var out := reg[s.name](ArgsFor(s, image))(image, bbs);
        var pruned := ops.clipOutOfImage(ops.removeOutOfImage(out.1));
        RunAppend(reg, ops, p1[1..], p2, draws[1..], out.0, pruned);
        var o := Run(reg, ops, p1[1..], draws[1..], out.0, pruned);
        if o.Finished? {
          PrependPrepend([Ran(s.name, ArgsFor(s, image))], o.events,
                         Run(reg, ops, p2, draws[|p1|..], o.image, o.bbs));
        }
      }
    }
  }

  /** One event per step when the run finishes: a step ran exactly when its
      own draw was below its probability, its operation was registered and
      was called with its magnitude. A run that raises does so at a step
      that fired with an unregistered name, the first such step. */
  lemma {:induction false} RunShape(reg: Registry, ops: BoxOps, policy: Policy, draws: seq<real>,
                                    image: Image, bbs: BoxSet)
    requires |draws| >= |policy|
    ensures var o := Run(reg, ops, policy, draws, image, bbs);
      o.Finished? ==>
        |o.events| == |policy| &&
        forall i :: 0 <= i < |policy| ==>
          (o.events[i].Ran? <==> Fires(policy[i], draws[i])) &&
          (o.events[i].Ran? ==> o.events[i].name == policy[i].name && policy[i].name in reg &&
                                o.events[i].args.magnitude == policy[i].magnitude)
    ensures var o := Run(reg, ops, policy, draws, image, bbs);
      o.Failed? ==>
        o.at < |policy| && o.name == policy[o.at].name && o.name !in reg && Fires(policy[o.at], draws[o.at]) &&
        forall j :: 0 <= j < o.at && Fires(policy[j], draws[j]) ==> policy[j].name in reg
  {
    if |policy| > 0 {
      var s := policy[0];
      if !Fires(s, draws[0]) {
        RunShape(reg, ops, policy[1..], draws[1..], image, bbs);
      } else if s.name in reg {
        var out := reg[s.name](ArgsFor(s, image))(image, bbs);
        RunShape(reg, ops, policy[1..], draws[1..], out.0, ops.clipOutOfImage(ops.removeOutOfImage(out.1)));
      }
    }
  }

  /** A run raises KeyError if and only if some step that fires names an
      unregistered operation; unregistered names in skipped steps are harmless. */
  lemma {:induction false} RunSucceedsIff(reg: Registry, ops: BoxOps, policy: Policy, draws: seq<real>, image: Image, bbs: BoxSet)
    requires |draws| >= |policy|
    ensures Run(reg, ops, policy, draws, image, bbs).Finished? <==>
            forall i :: 0 <= i < |policy| && Fires(policy[i], draws[i]) ==> policy[i].name in reg
  {
    RunShape(reg, ops, policy, draws, image, bbs);
    var o := Run(reg, ops, policy, draws, image, bbs);
    if o.Failed? {
      assert Fires(policy[o.at], draws[o.at]) && policy[o.at].name !in reg;
    }
  }

  /** If no step fires, the image and the boxes come back untouched:
      no operation, no pruning, no clipping. */
  lemma {:induction false} RunSkipAll(reg: Registry, ops: BoxOps, policy: Policy, draws: seq<real>,
                                      image: Image, bbs: BoxSet)
    requires |draws| >= |policy|
    requires forall i :: 0 <= i < |policy| ==> !Fires(policy[i], draws[i])
    ensures Run(reg, ops, policy, draws, image, bbs) == Finished(image, bbs, seq(|policy|, _ => Skipped))
  {
    if |policy| > 0 {
      assert !Fires(policy[0], draws[0]);
      assert forall i :: 0 <= i < |policy| - 1 ==> policy[1..][i] == policy[i + 1] && draws[1..][i] == draws[i + 1];
      RunSkipAll(reg, ops, policy[1..], draws[1..], image, bbs);
      assert [Skipped] + seq(|policy| - 1, _ => Skipped) == seq(|policy|, _ => Skipped);
    }
  }

  /** The name of a step that does not fire is never looked at: replacing
      it, by an unregistered name or any other, changes nothing. */
  lemma {:induction false} SkippedNameIrrelevant(reg: Registry, ops: BoxOps, policy: Policy, draws: seq<real>,
                                                 image: Image, bbs: BoxSet, k: nat, name: string)
    requires |draws| >= |policy| && k < |policy|
    requires !Fires(policy[k], draws[k])
    ensures Run(reg, ops, policy[k := policy[k].(name := name)], draws, image, bbs) ==
            Run(reg, ops, policy, draws, image, bbs)
  {
    var p := policy[k := policy[k].(name := name)];
    if k > 0 {
      assert p[0] == policy[0];
      assert p[1..] == policy[1..][k - 1 := policy[k].(name := name)];
      var s := policy[0];
      if !Fires(s, draws[0]) {
        SkippedNameIrrelevant(reg, ops, policy[1..], draws[1..], image, bbs, k - 1, name);
      } else if s.name in reg {
        var out := reg[s.name](ArgsFor(s, image))(image, bbs);
        SkippedNameIrrelevant(reg, ops, policy[1..], draws[1..], out.0,
                              ops.clipOutOfImage(ops.removeOutOfImage(out.1)), k - 1, name);
      }
    } else {
      assert p[1..] == policy[1..];
    }
  }

  /** Step `k` in terms of the run of the steps before it: a step that does
      not fire leaves image and boxes as they were; a step that fires with an
      unregistered name raises KeyError; otherwise its factory is called with
      the magnitude, plus the height and width of the image at that moment for
      Cutout and BBox_Cutout, the augmenter is applied to the current image and
      boxes, and the boxes it returns are pruned and then clipped. */
  lemma RunPrefixStep(reg: Registry, ops: BoxOps, policy: Policy, draws: seq<real>,
                      image: Image, bbs: BoxSet, k: nat)
    requires |draws| >= |policy| && k < |policy|
    ensures var before := Run(reg, ops, policy[..k], draws, image, bbs);
      before.Failed? ==> Run(reg, ops, policy[..k + 1], draws, image, bbs) == before
    ensures var before := Run(reg, ops, policy[..k], draws, image, bbs);
      var s := policy[k];
      var after := Run(reg, ops, policy[..k + 1], draws, image, bbs);
      before.Finished? ==>
        (!Fires(s, draws[k]) ==> after == Finished(before.image, before.bbs, before.events + [Skipped])) &&
        (Fires(s, draws[k]) && s.name !in reg ==> after == Failed(s.name, k)) &&
        (Fires(s, draws[k]) && s.name in reg ==>
          var args := if s.name == "Cutout" || s.name == "BBox_Cutout"
                      then MagnitudeAndShape(s.magnitude, before.image.height, before.image.width)
                      else Magnitude(s.magnitude);
          var out := reg[s.name](args)(before.image, before.bbs);
          after == Finished(out.0, ops.clipOutOfImage(ops.removeOutOfImage(out.1)),
                            before.events + [Ran(s.name, args)]))
  {
    var s := policy[k];
    assert policy[..k + 1] == policy[..k] + [s];
    RunAppend(reg, ops, policy[..k], [s], draws, image, bbs);
    var before := Run(reg, ops, policy[..k], draws, image, bbs);
    RunShape(reg, ops, policy[..k], draws, image, bbs);
    if before.Finished? {
      var d := draws[k..];
      assert d[0] == draws[k];
      assert [s][1..] == [];
      var one := Run(reg, ops, [s], d, before.image, before.bbs);
      if !Fires(s, d[0]) {
        assert Run(reg, ops, [], d[1..], before.image, before.bbs) == Finished(before.image, before.bbs, []);
        assert one == Finished(before.image, before.bbs, [Skipped]);
      } else if s.name in reg {
        var args := ArgsFor(s, before.image);
        var out := reg[s.name](args)(before.image, before.bbs);
        var pruned := ops.clipOutOfImage(ops.removeOutOfImage(out.1));
        assert Run(reg, ops, [], d[1..], out.0, pruned) == Finished(out.0, pruned, []);
        assert one == Finished(out.0, pruned, [Ran(s.name, args)]);
      }
    }
  }

  /** With draws in [0, 1), a step of probability 0 never runs and a step of
      probability 1 always runs; a KeyError can only come from a step whose
      probability is above 0. */
  lemma {:induction false} RunCertainSteps(reg: Registry, ops: BoxOps, policy: Policy, draws: seq<real>, image: Image, bbs: BoxSet)
    requires |draws| >= |policy|
    requires forall i :: 0 <= i < |draws| ==> 0.0 <= draws[i] < 1.0
    ensures var o := Run(reg, ops, policy, draws, image, bbs);
      o.Finished? ==>
        |o.events| == |policy| &&
        forall i :: 0 <= i < |policy| ==>
          (policy[i].probability == 0.0 ==> o.events[i] == Skipped) &&
          (policy[i].probability == 1.0 ==> o.events[i].Ran?)
    ensures var o := Run(reg, ops, policy, draws, image, bbs);
      o.Failed? ==> o.at < |policy| && policy[o.at].probability > 0.0
  {
    RunShape(reg, ops, policy, draws, image, bbs);
  }

  /** The converted boxes returned by `apply_augmentation`. */
  datatype BoxOutput = PixelRows(pixels: seq<PixelBox>) | YoloRows(yolo: seq<YoloBox>) {
    function RowCount(): nat {
      match this
      case PixelRows(rows) => |rows|
      case YoloRows(rows) => |rows|
    }
  }

  datatype Augmented = Augmented(image: Image, boxes: BoxOutput)

  /** `PolicyContainer`: never changed after `__init__`, so a value. Its
      constructor takes the policy list, the name-to-augmentation registry
      and the `return_yolo` flag. */
  datatype PolicyContainer = PolicyContainer(policies: seq<Policy>, augmentations: Registry, returnYolo: bool) {

    /** `__getitem__`: the registered factory, or KeyError. */
    function Lookup(item: string): (r: Result<Factory>)
      ensures r.Ok? <==> item in augmentations
      ensures r.Ok? ==> r.value == augmentations[item]
      ensures r.Err? ==> r.error == KeyError(item)
    {
      if item in augmentations then Ok(augmentations[item]) else Err(KeyError(item))
    }

    /** `select_random_policy`: `random.choice` with the index `k` it draws
        below the list's length; IndexError on an empty list. */
    function SelectRandomPolicy(k: nat): (r: Result<Policy>)
      requires |policies| > 0 ==> k < |policies|
      ensures r.Err? <==> |policies| == 0
      ensures r.Err? ==> r.error == IndexError
      ensures r.Ok? ==> r.value in policies
    {
      if |policies| == 0 then Err(IndexError) else Ok(policies[k])
    }

    /** Every policy of the list is returned for some draw. */
    lemma SelectCanReachAll(p: Policy)
      requires p in policies
      ensures exists k: nat :: k < |policies| && SelectRandomPolicy(k) == Ok(p)
    {
      var k :| 0 <= k < |policies| && policies[k] == p;
      assert SelectRandomPolicy(k) == Ok(p);
    }

    /** The format conversion after the last step, with the final image's shape. */
    function Output(image: Image, bbs: BoxSet): Result<BoxOutput> {
      if returnYolo then
        match BbsToPercent(bbs.boxes, image.height, image.width)
        case Ok(rows) => Ok(YoloRows(rows))
        case Err(e) => Err(e)
      else
        Ok(PixelRows(BbsToPixel(bbs.boxes)))
    }

    function Finish(image: Image, bbs: BoxSet): Result<Augmented> {
      match Output(image, bbs)
      case Ok(out) => Ok(Augmented(image, out))
      case Err(e) => Err(e)
    }

    /** What `apply_augmentation` returns for the given draws. */
    function Apply(policy: Policy, image: Image, boxes: seq<PixelBox>, draws: seq<real>, ops: BoxOps): Result<Augmented>
      requires |draws| >= |policy|
    {
      match Run(augmentations, ops, policy, draws, image, FromPixels(boxes, image))
      case Failed(name, _) => Err(KeyError(name))
      case Finished(img, bbs, _) => Finish(img, bbs)
    }

    /** If no step fires, the image is returned as given and the boxes are
        the input boxes converted directly. In pixel format, for corners in
        the `int32` range, they are the input boxes with their corners put in
        order, so exactly the input boxes when those were ordered. */
    lemma ApplySkipLaw(policy: Policy, image: Image, boxes: seq<PixelBox>, draws: seq<real>, ops: BoxOps)
      requires |draws| >= |policy|
      requires forall i :: 0 <= i < |policy| ==> !Fires(policy[i], draws[i])
      ensures Apply(policy, image, boxes, draws, ops) == Finish(image, FromPixels(boxes, image))
      ensures !returnYolo && (forall i :: 0 <= i < |boxes| ==> CornersInInt32(boxes[i])) ==>
              Apply(policy, image, boxes, draws, ops) ==
              Ok(Augmented(image, PixelRows(seq(|boxes|, i requires 0 <= i < |boxes| => Ordered(boxes[i])))))
      ensures !returnYolo &&
              (forall i :: 0 <= i < |boxes| ==>
                 CornersInInt32(boxes[i]) && boxes[i].x1 <= boxes[i].x2 && boxes[i].y1 <= boxes[i].y2) ==>
              Apply(policy, image, boxes, draws, ops) == Ok(Augmented(image, PixelRows(boxes)))
    {
      RunSkipAll(augmentations, ops, policy, draws, image, FromPixels(boxes, image));
      if forall i :: 0 <= i < |boxes| ==> CornersInInt32(boxes[i]) {
        PixelRoundTrip(boxes, image);
      }
    }

    /** `apply_augmentation` raises KeyError if and only if a step that fires
        names an unregistered operation, and then for the first such step. */
    lemma ApplyKeyError(policy: Policy, image: Image, boxes: seq<PixelBox>, draws: seq<real>, ops: BoxOps)
      requires |draws| >= |policy|
      ensures var r := Apply(policy, image, boxes, draws, ops);
        (r.Err? && r.error.KeyError?) <==>
        exists i :: 0 <= i < |policy| && Fires(policy[i], draws[i]) && policy[i].name !in augmentations
      ensures var r := Apply(policy, image, boxes, draws, ops);
        r.Err? && r.error.KeyError? ==>
        exists i :: 0 <= i < |policy| && Fires(policy[i], draws[i]) && r.error.key == policy[i].name &&
          policy[i].name !in augmentations &&
          forall j :: 0 <= j < i && Fires(policy[j], draws[j]) ==> policy[j].name in augmentations
    {
      var start := FromPixels(boxes, image);
      RunSucceedsIff(augmentations, ops, policy, draws, image, start);
      RunShape(augmentations, ops, policy, draws, image, start);
      var o := Run(augmentations, ops, policy, draws, image, start);
      if o.Failed? {
        var i := o.at;
        assert Fires(policy[i], draws[i]) && policy[i].name !in augmentations;
      }
    }

    /** On success the image is the one the last step produced, and there is
        one output row per box left after the last pruning: its truncated
        corners in pixel format, or in YOLO format the fractions of the final
        image's height (`shape[0]`) and width (`shape[1]`) that give the box
        back. The only other error is a zero image side in YOLO format. */
    lemma ApplyOutput(policy: Policy, image: Image, boxes: seq<PixelBox>, draws: seq<real>, ops: BoxOps)
      requires |draws| >= |policy|
      requires Run(augmentations, ops, policy, draws, image, FromPixels(boxes, image)).Finished?
      ensures var o := Run(augmentations, ops, policy, draws, image, FromPixels(boxes, image));
        var r := Apply(policy, image, boxes, draws, ops);
        (r.Err? <==> returnYolo && |o.bbs.boxes| > 0 && (o.image.height == 0 || o.image.width == 0)) &&
        (r.Ok? ==> r.value.image == o.image && r.value.boxes.RowCount() == |o.bbs.boxes|) &&
        (r.Ok? && !returnYolo ==>
          r.value.boxes.PixelRows? &&
          forall i :: 0 <= i < |o.bbs.boxes| ==> r.value.boxes.pixels[i] == ToPixel(o.bbs.boxes[i])) &&
        (r.Ok? && returnYolo ==>
          r.value.boxes.YoloRows? &&
          forall i :: 0 <= i < |o.bbs.boxes| ==>
            YoloToBox(r.value.boxes.yolo[i], o.image.height, o.image.width) == o.bbs.boxes[i])
    {
    }

    /** `apply_augmentation`: `draws` stands for the successive values of
        `np.random.random()`; `rest` is what is left of them afterwards. */
    method ApplyAugmentation(policy: Policy, image: Image, boundingBoxes: seq<PixelBox>,
                             draws: seq<real>, ops: BoxOps)
      returns (r: Result<Augmented>, rest: seq<real>)
      requires |draws| >= |policy|
      ensures r == Apply(policy, image, boundingBoxes, draws, ops)
      ensures var o := Run(augmentations, ops, policy, draws, image, FromPixels(boundingBoxes, image));
        rest == draws[DrawsUsed(o, |policy|)..]
    {
      ghost var start := FromPixels(boundingBoxes, image);
      var bbs := FromPixels(boundingBoxes, image);
      var img := image;
      ghost var events: seq<Event> := [];
      var i := 0;
      while i < |policy|
        invariant 0 <= i <= |policy|
        invariant |events| == i
        invariant Run(augmentations, ops, policy, draws, image, start) ==
                  Prepend(events, Run(augmentations, ops, policy[i..], draws[i..], img, bbs))
      {
        var s := policy[i];
        assert policy[i..][0] == s && policy[i..][1..] == policy[i + 1..];
        assert draws[i..][0] == draws[i] && draws[i..][1..] == draws[i + 1..];
        if draws[i] < s.probability {
          var args;
          if s.name == "Cutout" || s.name == "BBox_Cutout" {
            args := MagnitudeAndShape(s.magnitude, img.height, img.width);
          } else {
            args := Magnitude(s.magnitude);
          }
          var factory := Lookup(s.name);
          if factory.Err? {
            assert Run(augmentations, ops, policy[i..], draws[i..], img, bbs) == Failed(s.name, 0);
            r, rest := Err(factory.error), draws[i + 1..];
            return;
          }
          var aug := factory.value(args);
          var out := aug(img, bbs);
          PrependPrepend(events, [Ran(s.name, args)],
                         Run(augmentations, ops, policy[i + 1..], draws[i + 1..], out.0,
                             ops.clipOutOfImage(ops.removeOutOfImage(out.1))));
          img, bbs := out.0, ops.clipOutOfImage(ops.removeOutOfImage(out.1));
          events := events + [Ran(s.name, args)];
        } else {
          PrependPrepend(events, [Skipped], Run(augmentations, ops, policy[i + 1..], draws[i + 1..], img, bbs));
          events := events + [Skipped];
        }
        i := i + 1;
      }
      assert Run(augmentations, ops, policy[i..], draws[i..], img, bbs) == Finished(img, bbs, []);
      assert events + [] == events;
      if returnYolo {
        var rows := BbsToPercent(bbs.boxes, img.height, img.width);
        if rows.Err? {
          r := Err(rows.error);
        } else {
          r := Ok(Augmented(img, YoloRows(rows.value)));
        }
      } else {
        r := Ok(Augmented(img, PixelRows(BbsToPixel(bbs.boxes))));
      }
      rest := draws[|policy|..];
    }
  }

  /** With every catalogue name registered, a policy written as the
      catalogue writes its steps never raises KeyError, whatever the draws. */
  lemma {:induction false} WellFormedPolicyRuns(reg: Registry, ops: BoxOps, policy: Policy, draws: seq<real>,
                                                image: Image, bbs: BoxSet)
    requires OperationNames <= reg.Keys
    requires |draws| >= |policy|
    requires forall i :: 0 <= i < |policy| ==> WellFormedStep(policy[i])
    ensures Run(reg, ops, policy, draws, image, bbs).Finished?
  {
    RunSucceedsIff(reg, ops, policy, draws, image, bbs);
  }

  /** In particular no policy of `policies_v3` raises KeyError then. */
  lemma CatalogueRunsWithFullRegistry(reg: Registry, ops: BoxOps, k: nat, draws: seq<real>,
                                      image: Image, bbs: BoxSet)
    requires OperationNames <= reg.Keys
    requires k < |PoliciesV3()| && |draws| >= 2
    ensures Run(reg, ops, PoliciesV3()[k], draws, image, bbs).Finished?
  {
    WellFormedPolicyRuns(reg, ops, PoliciesV3()[k], draws, image, bbs);
  }

  /** A one-step AutoContrast policy of probability 1.0 whose augmenter
      leaves image and boxes alone returns the box [0, 0, 50, 50] of a
      100 x 100 image unchanged in pixel format, for every draw in [0, 1). */
  lemma EndToEndExample(draw: real, pixels: seq<int>)
    requires 0.0 <= draw < 1.0
    ensures
      var identity: Factory := (a: FactoryArgs) => ((img: Image, b: BoxSet) => (img, b));
      var container := PolicyContainer([[Step("AutoContrast", 1.0, 10)]], map["AutoContrast" := identity], false);
      var image := Image(100, 100, pixels);
      var ops := BoxOps(b => b, b => b);
      container.Apply([Step("AutoContrast", 1.0, 10)], image, [PixelBox(0, 0, 50, 50)], [draw], ops) ==
        Ok(Augmented(image, PixelRows([PixelBox(0, 0, 50, 50)])))
  {
    var identity: Factory := (a: FactoryArgs) => ((img: Image, b: BoxSet) => (img, b));
    var image := Image(100, 100, pixels);
    var ops := BoxOps(b => b, b => b);
    var policy := [Step("AutoContrast", 1.0, 10)];
    var start := FromPixels([PixelBox(0, 0, 50, 50)], image);
    assert policy[1..] == [];
    assert Run(map["AutoContrast" := identity], ops, policy, [draw], image, start) ==
           Finished(image, start, [Ran("AutoContrast", Magnitude(10))]);
    PixelRoundTrip([PixelBox(0, 0, 50, 50)], image);
  }
}
