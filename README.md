# bbaug augmentation policies, modelled in Dafny

This project models the policy layer of bbaug (`bbaug/policies/policies.py`):
the fixed catalogue `policies_v3` of fifteen two-step augmentation policies,
and `PolicyContainer`, which looks up operations by name, picks a random
policy and runs a policy over an image and its bounding boxes. Each step of a
policy is gated by one random draw, and each step that runs is followed by
pruning and clipping of the boxes. At the end the boxes are converted to
pixel corners or to YOLO format.

Files and modules:

- `exceptions.dfy`, module `Exceptions`: the Python exceptions the code can
  raise (`KeyError`, `ZeroDivisionError`, `IndexError`) and a `Result` type.
- `boxes.dfy`, module `Boxes`: the image, imgaug's `BoundingBox` and
  `BoundingBoxesOnImage` as values, the construction of the box set from the
  caller's integer boxes, and the two output conversions `_bbs_to_pixel` and
  `_bbs_to_percent`.
- `catalogue.dfy`, module `Catalogue`: the policy step, `policies_v3` and the
  set of fourteen operation names it uses.
- `container.dfy`, module `Container`: the registry and factory types, the
  specification `Run` of the step loop, its lemmas, and the `PolicyContainer`
  datatype. `PolicyContainer` is never changed after `__init__`, so it is a
  datatype and `__init__` is its constructor. Its members are `Lookup`
  (`__getitem__`), `SelectRandomPolicy` and the method `ApplyAugmentation`,
  which keeps the source's loop and is proved equal to the specification `Apply`.

Collaborators and randomness are parameters:

- The augmentation registry is a `map` from names to factory function values.
- imgaug's `remove_out_of_image` and `clip_out_of_image` are a pair of
  function values (`BoxOps`).
- The successive results of `np.random.random()` are a sequence `draws`,
  one per step. `ApplyAugmentation` returns the unused rest of that sequence.
- The index drawn by `random.choice` is an argument of `SelectRandomPolicy`.

Behaviour of the code that the model follows:

- A step with probability `p` runs exactly when its draw is `< p`. The draw
  is taken before the registry is consulted. So an unregistered name only
  raises `KeyError` when its step runs.
- Pixel output is `astype('int32')`. This truncates toward zero; it does not
  round.
- YOLO output divides by the height and width of the final image
  (`image.shape[0]`, `image.shape[1]`), not of the input image.
- An empty policy list makes `random.choice` raise `IndexError`.
- An unregistered name raises the dictionary's `KeyError`.

## Model

| member | source | states |
|---|---|---|
| `Catalogue.PoliciesV3` | bbaug/policies/policies.py:38-107 | there are exactly 15 policies, each of exactly two steps; every step names one of the fourteen operations, has a probability in [0, 1] and a magnitude in 0..10 |
| `Catalogue.PoliciesV3Names` | bbaug/policies/policies.py:45-106 | the names used by the catalogue are exactly the fourteen operation names, each of them occurring |
| `Boxes.FromPixels` | bbaug/policies/policies.py:225-228 | the box set has one box per input box, in order, holding its integer corners put in order (imgaug's `BoundingBox` swaps reversed x or y corners), and takes the input image's height and width |
| `Boxes.Truncate` | bbaug/policies/policies.py:195 | the int32 cast keeps the integer part toward zero: for x >= 0 the result n has n <= x < n + 1, for x < 0 it has n - 1 < x <= n |
| `Boxes.TruncateIsNotRounding` | bbaug/policies/policies.py:195 | 2.7 becomes 2 and -2.7 becomes -2: truncation, neither rounding nor flooring |
| `Boxes.BbsToPixel` | bbaug/policies/policies.py:177-195 | one row per box, in the boxes' order, each row the four truncated corners |
| `Boxes.PixelRoundTrip` | bbaug/policies/policies.py:187-195 | integer input boxes with corners in the int32 range, wrapped into a box set and converted to pixels, come back with their corners in order; boxes whose corners were already ordered come back exactly |
| `Boxes.SwappedCornersExample` | bbaug/policies/policies.py:226 | the input box [50, 0, 0, 50] comes back from the pixel conversion as [0, 0, 50, 50] |
| `Boxes.ToYolo` | bbaug/policies/policies.py:168-173 | for non-zero image sides, the YOLO row (centre and size as fractions of width and height) determines the box: reading it back gives the original corners |
| `Boxes.BbsToPercent` | bbaug/policies/policies.py:148-175 | ZeroDivisionError if and only if there is a box and an image side is 0; otherwise one row per box, in order, each reading back to its box |
| `Boxes.YoloInUnitRange` | bbaug/policies/policies.py:167-175 | a box lying inside the image gives four YOLO values in [0, 1] |
| `Boxes.YoloExample` | bbaug/policies/policies.py:167-175 | the box (10, 20, 110, 220) on a 200-wide, 300-high image gives (0.3, 0.4, 0.5, 2/3) |
| `Container.Run` | bbaug/policies/policies.py:229-240 | a KeyError from the step loop is reported at an index of one of the policy's steps |
| `Container.RunAppend` | bbaug/policies/policies.py:229-240 | running a concatenation of two policies is running the first, then, unless it raised, running the second on the image and boxes the first produced with the draws that follow: steps run in policy order, each on its predecessor's output |
| `Container.RunShape` | bbaug/policies/policies.py:229-238 | a finished run has one event per step; step i ran if and only if draw i is below its probability, and then its name was registered and its factory got its magnitude; a failed run failed at a step that fired with an unregistered name, the first such step |
| `Container.RunSucceedsIff` | bbaug/policies/policies.py:229-238 | the step loop raises no KeyError if and only if every step that fires names a registered operation |
| `Container.RunSkipAll` | bbaug/policies/policies.py:229-240 | when no step fires, the image and the boxes are returned untouched: no operation, no pruning, no clipping |
| `Container.SkippedNameIrrelevant` | bbaug/policies/policies.py:230-238 | the name of a step that does not fire is never used: replacing it by any name, registered or not, leaves the outcome unchanged |
| `Container.RunPrefixStep` | bbaug/policies/policies.py:229-240 | step k, given the run of the steps before it: skipped leaves image and boxes unchanged; fired with an unregistered name raises KeyError at k; otherwise its factory gets the magnitude, plus the current image's height and width exactly for Cutout and BBox_Cutout, the augmenter gets the current image and boxes, and its boxes are pruned and then clipped |
| `Container.RunCertainSteps` | bbaug/policies/policies.py:230 | with draws in [0, 1), a step of probability 0 never runs, a step of probability 1 always runs, and a KeyError comes only from a step of probability above 0 |
| `Container.WellFormedPolicyRuns` | bbaug/policies/policies.py:229-238 | with every catalogue operation name registered, a policy whose steps all have catalogue names never raises KeyError, whatever the draws |
| `Container.CatalogueRunsWithFullRegistry` | bbaug/policies/policies.py:45-106 | with all fourteen catalogue names registered, no catalogue policy raises KeyError, whatever the draws |
| `Container.PolicyContainer.Lookup` | bbaug/policies/policies.py:137-146 | the registered factory if and only if the name is registered, KeyError carrying the name otherwise |
| `Container.PolicyContainer.SelectRandomPolicy` | bbaug/policies/policies.py:197-204 | IndexError if and only if the policy list is empty; otherwise a member of the list |
| `Container.PolicyContainer.SelectCanReachAll` | bbaug/policies/policies.py:204 | every policy of the list is returned for some drawn index |
| `Container.PolicyContainer.ApplyAugmentation` | bbaug/policies/policies.py:206-245 | the result equals the specification `Apply` (the step loop `Run` followed by the configured conversion of the final boxes); the unused draws are those after the last step, or after the step that raised |
| `Container.PolicyContainer.ApplySkipLaw` | bbaug/policies/policies.py:225-245 | when no step fires, the image is returned as given and the boxes are the input boxes converted directly; in pixel format, for corners in the int32 range, they are the input boxes with corners put in order, and equal the input boxes when those were ordered |
| `Container.PolicyContainer.ApplyKeyError` | bbaug/policies/policies.py:229-238 | KeyError if and only if some step that fires names an unregistered operation, and the key is the name of the first such step |
| `Container.PolicyContainer.ApplyOutput` | bbaug/policies/policies.py:241-244 | on success the image is the last step's, there is one row per box left after the last pruning, pixel rows are the truncated corners, YOLO rows read back to the boxes using the final image's height and width; the only other error is a zero image side in YOLO format |
| `Container.EndToEndExample` | bbaug/policies/policies.py:225-245 | one AutoContrast step of probability 1.0 with an identity augmenter returns the box [0, 0, 50, 50] of a 100 x 100 image unchanged in pixel format |

## Left out

- The augmentation operations and the default registry `NAME_TO_AUGMENTATION`
  (`bbaug.augmentations.augmentations` is not part of this model). They are
  factory function values in a `map`. The default argument of `__init__` is
  therefore not modelled.
- imgaug's `remove_out_of_image` and `clip_out_of_image`. These are foreign
  calls, kept as uninterpreted function values. The model therefore says
  nothing about which boxes they drop or how they clip.
- Boxes.FromPixels: models imgaug's `BoundingBox` constructor only as
  storing the corners in order. That constructor is foreign code. Input
  rows are typed as four integers, so two things are not modelled. A
  five-entry row is accepted by `BoundingBox(*bb)`, and its fifth entry
  becomes the box's label. A row with fewer than four or more than five
  entries raises `TypeError`.
- Randomness. `np.random.random()` is the `draws` sequence and
  `random.choice` is the drawn index.
- Container.PolicyContainer.ApplyAugmentation: `rest` is what remains of
  NumPy's global random stream only if no factory, augmenter or box
  operation draws from `np.random` itself. The model's factories and box
  operations are pure function values, so in the model none of them draw.
- Container.PolicyContainer.SelectRandomPolicy: states that the result is a
  member of the list, not that the choice is uniform, because the random
  index is an input.
- Floating point. Probabilities such as 0.8 are compared as exact reals,
  not as IEEE doubles. YOLO fractions are exact reals. A zero image side is
  modelled as Python's `ZeroDivisionError`, as raised for Python float
  coordinates. With NumPy scalar coordinates NumPy would give inf or nan
  instead, and that is not modelled.
- Boxes.Truncate: does not model the int32 range. NumPy's cast of a
  coordinate outside -2^31 .. 2^31 - 1 does not keep its value, and the
  result depends on the platform. Such coordinates can reach the cast:
  when no step fires, nothing is clipped, so the caller's raw boxes go
  straight to `_bbs_to_pixel`.
- Boxes.PixelRoundTrip: stated only for corners in the int32 range, for
  the reason given for `Boxes.Truncate`.
- Container.PolicyContainer.ApplySkipLaw: its pixel clauses are stated only
  for corners in the int32 range, for the same reason.
- NumPy array shapes. An empty result is an empty sequence, whatever shape
  NumPy gives it.
- Image pixels and channels. The image is an opaque value. Line 227
  passes the whole `image.shape` to `BoundingBoxesOnImage`, channels
  included, but `BoxSet` keeps only the height and width of that shape.
- The `POLICY_TUPLE_TYPE` annotation types `magnitude` as `str`, but every
  catalogue entry holds an int. The model uses `int`.
