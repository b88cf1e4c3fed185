# jdu-image: a Dafny model of the image handle's own logic

`jduimage` wraps OpenCV and NumPy in one mutable `Image` object. Almost every method
validates its arguments and then makes one library call. This project models the part
the repository computes itself, with exact integer arithmetic:

- the handle and the properties derived from its `data` field (`shape`, `height`,
  `width`, `dim`);
- rectangle extraction (`crop`, `crop2`, `split`);
- pixel re-indexing (the cyclic `vertical_shift` and `horizontal_shift`, `channel`,
  uint8 `negate`);
- the argument guards of `blur` and `ring`, and the corner list of `get_corners`;
- the path logic of `save`.

An image's data is a NumPy array (`Arrays.Data`). It is either a height × width grid of
uint8 values (`Plane`, 2-D), a grid of channel vectors (`Stack`, 3-D), or an array of
rank four or more (`Other`), of which only the shape is kept. The grid stores its width
explicitly, so an empty crop keeps the right shape, as NumPy's shape (0, w) does.
NumPy's basic slicing is modelled with Python's index normalisation (`Arrays.SliceIndex`,
`Arrays.SliceRange`): a negative bound counts from the end and every bound is clamped to
the axis length. Integer-array indexing on one axis is `Arrays.GatherColumns` and
`Arrays.GatherRows`.

Each source file has its own module: `ImageStructure`, `ImageCrop` (the slicing logic of
`jduimage/__init__.py`), `GeneralMixin`, `ToClassifyMixin`, `OutputMixin` and
`CircleMixin`. They hold pure functions with their contracts, plus lemmas. The class
`Jduimage.Image` is the handle. It has one `data` field and reading functions for the
derived properties. Its methods replace `data` exactly as the source does. Each method's
postcondition ties the new `data` to the module function applied to the old one.

Exceptions are values (`Errors.Result`, `Errors.Outcome`). A ValueError or TypeError the
repository raises keeps the message it writes. The IndexError of `channel` and the
ValueError of `max` on an empty list come from Python itself: the IndexError carries no
message here, and the `max` message is the interpreter's wording. I/O and OpenCV
results that the model cannot compute are parameters:

- `loaded` is the answer of the file system and decoder when an image is built from a
  path;
- `filtered` is OpenCV's output in `Blur`.

The constructor stores an array of any rank, so `Other` stands for the array ranks that
pass through unchanged. Because `split` is built from two `crop`s, a horizontal split at
p succeeds exactly when 0 < p < height and width > 0, and a vertical split at p exactly
when 0 < p < width and height > 0; `GeneralMixin.Split` states both.

Where the code and its documentation disagree, the model follows the code:

- The class docstring says "All operation on instances are inplace"
  (jduimage/_imageStructure.py:9). In fact every modelled operation assigns a new array
  to `data`, so the model treats arrays as values.
- `get_corners` is documented as clockwise (jduimage/_circleMixin.py:170). The order it returns is top-left,
  bottom-left, bottom-right, top-right, with x along the width and y down the height.
  Its shoelace sum is −2·width·height (`CircleMixin.CornersEncloseImage`), so on screen
  it runs counter-clockwise.
- `crop2` documents `height` as the height of the cropped image (jduimage/__init__.py:110-111),
  but does not reject a negative `height` or `width`. When `tl0 + height < 0` the
  slice end is negative and Python counts it from the last row, so from tl = (0, 0),
  `height = -k` keeps all rows but the last k (`ImageCrop.Crop2NegativeHeight`). When
  `tl0 + height` is not negative, the end lies before the start and the crop is empty
  (`ImageCrop.Crop2NegativeHeightEmpty`). Widths behave the same way.

## Model

| member | source | states |
|---|---|---|
| ImageStructure.FromInput | jduimage/_imageStructure.py:19-26 | TypeError("Bad type") exactly when the input is neither a path nor an array; an array is stored unchanged; a path yields the loaded array, or ValueError naming the path when it does not exist |
| Jduimage.Image.constructor | jduimage/_imageStructure.py:79-82 | the given array becomes `data` as it is |
| Jduimage.Image.Create | jduimage/_imageStructure.py:11-26 | the constructor raises what `FromInput` raises, and otherwise returns a new image holding that array |
| Jduimage.Image.Shape | jduimage/_imageStructure.py:28-31 | the shape of the current data: (rows, columns) for a 2-D grid, (rows, columns, channels) for a 3-D one |
| Jduimage.Image.Height | jduimage/_imageStructure.py:38-41 | `shape[0]`, the number of rows of the current data |
| Jduimage.Image.Width | jduimage/_imageStructure.py:33-36 | `shape[1]`, the length of every row of the current data |
| Jduimage.Image.Dim | jduimage/_imageStructure.py:43-46 | the length of the shape, 2 exactly for a single-channel grid and 3 exactly for a multi-channel one |
| Jduimage.Image.DeepCopy | jduimage/__init__.py:33-41 | a new image whose data equals this one's |
| Arrays.SliceIndex | jduimage/__init__.py:95 | Python's normalisation of one slice bound on an axis of length n: a non-negative bound clamped to n, a negative one counted from the end, and 0 past the start |
| Arrays.SliceRange | jduimage/__init__.py:95 | the half-open range a slice selects: a normalised start, and an end that is never before it and never past n |
| Arrays.Slice | jduimage/__init__.py:120 | NumPy's `d[r0:r1, c0:c1]`: the block of the source between the Python-normalised bounds, pixel for pixel |
| ImageCrop.Crop | jduimage/__init__.py:88-95 | raises exactly when tl is negative, br lies beyond the image, or tl is not strictly above and left of br, with each guard's message in order; otherwise the block from tl of `min(br0+1, height) - tl0` rows and `min(br1+1, width) - tl1` columns, at least 1 × 1, whose pixel (i, j) is source pixel (tl0+i, tl1+j) |
| ImageCrop.CropIncludesBottomRight | jduimage/__init__.py:95 | when br lies inside the image, the result spans tl to br inclusive and its last pixel is the source pixel at br |
| ImageCrop.CropIsCrop2 | jduimage/__init__.py:95-120 | an accepted crop equals the crop2 of size (br0 - tl0 + 1) × (br1 - tl1 + 1) |
| ImageCrop.Crop2 | jduimage/__init__.py:117-120 | raises ValueError("Wrong tl") exactly when tl is negative; otherwise the Python-clamped window `[tl0, tl0+height) × [tl1, tl1+width)` of the source |
| ImageCrop.Crop2Size | jduimage/__init__.py:120 | for a non-negative size, the result is never larger than requested, is exactly the requested size when it fits, and is empty when tl lies beyond the image |
| ImageCrop.Crop2NegativeHeight | jduimage/__init__.py:120 | from tl = (0, 0), a negative height -k keeps height - k rows, counted from the top |
| ImageCrop.Crop2NegativeHeightEmpty | jduimage/__init__.py:117-120 | a negative height -k with k <= tl0 is accepted and gives an empty crop |
| Jduimage.Image.Crop | jduimage/__init__.py:75-99 | on error nothing changes; in place, data becomes the crop and nothing is returned; otherwise a new image holding the crop is returned and data is kept |
| Jduimage.Image.Crop2 | jduimage/__init__.py:101-124 | the same in-place convention for crop2 |
| GeneralMixin.Component | jduimage/_generalMixin.py:17 | one of the planes `cv.split` gives: same height and width, with pixel (i, j) component c of source pixel (i, j) |
| GeneralMixin.Channel | jduimage/_generalMixin.py:16-18 | a 2-D image is returned unchanged for every c; for a multi-channel image, c is a Python index into its planes (negative from the end, IndexError outside, and no planes for an empty image); the result is 2-D with pixel (i, j) equal to component c of source pixel (i, j) |
| Jduimage.Image.Channel | jduimage/_generalMixin.py:8-18 | data becomes the selected plane, or is kept when selection raises |
| GeneralMixin.Resolve | jduimage/_generalMixin.py:36-45 | "mid" stands for n // 2, and an index for itself |
| GeneralMixin.Split | jduimage/_generalMixin.py:30-52 | ValueError("Wrong orientation") for any direction but the four names; a horizontal split at p succeeds exactly when 0 < p < height and width > 0, giving rows 0..p and rows p..height-1 at full width; a vertical split does the same on columns |
| GeneralMixin.HorizontalSplitSharesRow | jduimage/_generalMixin.py:39-50 | the halves' heights add up to height + 1, both have the full width, and row p is the last of the first half and the first of the second |
| GeneralMixin.VerticalSplitSharesColumn | jduimage/_generalMixin.py:46-50 | the halves' widths add up to width + 1, and column p is in both |
| GeneralMixin.MidSplitOfOneRowFails | jduimage/_generalMixin.py:37-49 | "mid" on a one-row image raises |
| Jduimage.Image.Split | jduimage/_generalMixin.py:20-52 | two new images holding the halves; the image itself is not modified |
| GeneralMixin.Invert | jduimage/_generalMixin.py:59 | uint8 `~v` adds up with v to 255 |
| GeneralMixin.InvertIsBitwiseNot | jduimage/_generalMixin.py:59 | `Invert` flips each of the eight bits of v, as uint8 `~` does, so `~v` is 255 - v |
| GeneralMixin.Negate | jduimage/_generalMixin.py:56-59 | ValueError exactly for images that are not 2-D; otherwise the same shape with every pixel v replaced by 255 - v |
| GeneralMixin.NegateTwice | jduimage/_generalMixin.py:59 | negating twice restores the image |
| Jduimage.Image.Negate | jduimage/_generalMixin.py:54-59 | data becomes the negation, or is kept when negation raises |
| GeneralMixin.BlurGuard | jduimage/_generalMixin.py:70-75 | passes exactly for one of the four filter names with an odd size of at least 3; the filter name is checked first, then the size, then its parity |
| Jduimage.Image.Blur | jduimage/_generalMixin.py:61-84 | when the guard fails, data is kept and nothing is filtered; otherwise data becomes the filter's output |
| ToClassifyMixin.ShiftIndexes | jduimage/_toClassifyMixin.py:17 | `(np.arange(n) + offset) % n`: n indexes below n, entry k being (k + offset) mod n, and every index below n among them (a rotation of 0..n-1) |
| Arrays.GatherColumns | jduimage/_toClassifyMixin.py:20-22 | NumPy's `g[:, idx]`: the same rows, one column per index, column j being column idx[j] of the source |
| Arrays.GatherRows | jduimage/_toClassifyMixin.py:29-31 | NumPy's `g[idx, :]`: the same width, one row per index, row i being row idx[i] of the source |
| ToClassifyMixin.VerticalShift | jduimage/_toClassifyMixin.py:17-22 | same shape; column j of the result is column (j + offset) mod width, for every offset such that `offset` and `offset + width - 1` both fit NumPy's default integer (int64 on most platforms); arrays of other ranks are unchanged |
| ToClassifyMixin.HorizontalShift | jduimage/_toClassifyMixin.py:26-31 | same shape; row i of the result is row (i + offset) mod height, for every offset such that `offset` and `offset + height - 1` both fit NumPy's default integer (int64 on most platforms); arrays of other ranks are unchanged |
| ToClassifyMixin.VerticalShiftCompose | jduimage/_toClassifyMixin.py:17 | shifting by a and then by b is shifting by a + b |
| ToClassifyMixin.VerticalShiftPeriodic | jduimage/_toClassifyMixin.py:17 | shifting by any multiple of the width, 0 included, is the identity |
| ToClassifyMixin.VerticalShiftUndo | jduimage/_toClassifyMixin.py:17 | shifting by offset and then by -offset restores the image |
| ToClassifyMixin.HorizontalShiftCompose | jduimage/_toClassifyMixin.py:26 | row shifts by a and by b compose to a shift by a + b |
| ToClassifyMixin.HorizontalShiftPeriodic | jduimage/_toClassifyMixin.py:26 | shifting rows by any multiple of the height is the identity |
| ToClassifyMixin.HorizontalShiftUndo | jduimage/_toClassifyMixin.py:26 | shifting rows by offset and then by -offset restores the image |
| Jduimage.Image.VerticalShift | jduimage/_toClassifyMixin.py:15-22 | data becomes the column-shifted array, with its shape kept |
| Jduimage.Image.HorizontalShift | jduimage/_toClassifyMixin.py:24-31 | data becomes the row-shifted array, with its shape kept |
| OutputMixin.SplitOn | jduimage/_outputMixin.py:38 | Python's `split` on one character: at least one piece, no piece holds the separator, and a single piece exactly when the string holds no separator |
| OutputMixin.JoinSplitOn | jduimage/_outputMixin.py:42-43 | `Join`, Python's `sep.join`, undoes `SplitOn`: joining the pieces of a split with its separator gives back the string |
| OutputMixin.SplitOnJoin | jduimage/_outputMixin.py:42-43 | `SplitOn` undoes `Join`: splitting a join of separator-free pieces gives back the pieces |
| OutputMixin.Extension | jduimage/_outputMixin.py:38 | the text after the last '.', which holds no '.', or the whole path if it has none |
| OutputMixin.ExtensionAfterLastDot | jduimage/_outputMixin.py:38 | a path with a '.' is the text before its last '.', the '.', and the extension |
| OutputMixin.Replace | jduimage/_outputMixin.py:42 | Python's `replace` of one character: the same length, each `from` turned into `to`, every other character kept, and no `from` left when the two differ |
| OutputMixin.Normalised | jduimage/_outputMixin.py:42 | `path.replace("\\", "/")`: the same length, each backslash turned into '/', every other character kept, and no backslash left |
| OutputMixin.SaveFolder | jduimage/_outputMixin.py:38-45 | ValueError exactly when the extension is not literally "jpg", "jpeg" or "png"; otherwise the folder holds no backslash, is empty for a bare file name, and with "/" and the last segment rebuilds the normalised path |
| OutputMixin.UpperCaseExtensionRejected | jduimage/_outputMixin.py:38-39 | "x.PNG" is rejected: the check is case-sensitive |
| OutputMixin.BareExtensionAccepted | jduimage/_outputMixin.py:38-45 | the path "png" is accepted, with an empty folder (no directory is created) |
| OutputMixin.BackslashSeparatesFolder | jduimage/_outputMixin.py:42-43 | a file named after a backslash is saved into the folder before it, written with '/' |
| OutputMixin.SplitOnConcat | jduimage/_outputMixin.py:42 | splitting at a separator splits the text on each side of it |
| CircleMixin.Corners | jduimage/_circleMixin.py:177-184 | four points starting at (0, 0) with (width, height) third; every x is 0 or width and every y is 0 or height; consecutive points, the last back to the first, share a coordinate, and on a non-empty image differ in exactly one and are pairwise distinct |
| CircleMixin.CornersEncloseImage | jduimage/_circleMixin.py:170-184 | the shoelace sum of the corners is −2·width·height |
| CircleMixin.RingGuard | jduimage/_circleMixin.py:91-98 | passes exactly when center has two entries, radii is not empty and every radius lies strictly between 0 and min(height, width) // 2; the length of radii is never checked |
| CircleMixin.Largest | jduimage/_circleMixin.py:95 | Python's `max`: an element of the list, and no element is larger |
| CircleMixin.Smallest | jduimage/_circleMixin.py:97 | Python's `min`: an element of the list, and no element is smaller |
| CircleMixin.RingGuardAcceptsThreeRadii | jduimage/_circleMixin.py:93-94 | the guard as written accepts three radii on a 20 × 20 image, and the corrected guard rejects them |
| CircleMixin.RingGuardChecked | jduimage/_circleMixin.py:93-94 | the corrected guard passes exactly when there are two centre coordinates and two radii, both in range |

## Findings

| source | as written | input that shows it | evidently intended | confidence | as-written member | corrected member |
|---|---|---|---|---|---|---|
| jduimage/_circleMixin.py:93-94 | the second guard tests `len(center) != 2` again, so the length of `radii` is never checked | `ring([10, 10], [1, 2, 3])` on a 20 × 20 image passes the guard | raise ValueError("radi requires 2 values") unless `len(radii) == 2` | high (the message names radii); not executed | `CircleMixin.RingGuard` with `CircleMixin.RingGuardAcceptsThreeRadii` | `CircleMixin.RingGuardChecked` |

## Left out

- Arrays of rank 0 or 1: `width` raises IndexError on them, and no modelled operation does anything meaningful with them. `Other` covers only rank four and more.
- Element types other than uint8. `~` on signed, float or boolean arrays is not 255 - v, so `negate` is modelled for uint8 only.
- GeneralMixin.Channel: requires a 2-D array, or a 3-D array with 1 to 512 channels (512 is OpenCV's CV_CN_MAX). OpenCV's `split` on arrays of other ranks, with zero channels or with more than 512 is not modelled. An empty multi-channel array is taken to split into no planes.
- Jduimage.Image.Blur: the Gaussian, box, median and bilateral filters are OpenCV's. Their output is the `filtered` parameter, and only the guard and its ordering are modelled.
- Loading from a path: the existence test and `cv.imread` are I/O, given as `loaded`. `imread` returning None for an unreadable file is not modelled.
- `save`: the folder's existence test, `mkdir` and `imwrite` are I/O. The model stops at the folder that would be created.
- `show`: it opens a window and waits for a key.
- Buffer aliasing: the constructor and `deepcopy` share the caller's array without copying. `crop` and `crop2` with `inplace=False` return images holding NumPy views of `data` (jduimage/__init__.py:95-99, 120-124). `split`'s two halves are such views as well, and they overlap on row or column p (jduimage/_generalMixin.py:49-50). Every modelled operation assigns a new array to `data` instead of writing into it, so value semantics are faithful here.
- `crop` and `crop2` read `tl` and `br` as lists. They are modelled as pairs, so extra entries and short lists are left out. A `split` position that is a string other than "mid" is also left out. (`ring`'s `center` and `radii` are sequences, and their lengths are modelled.)
- ToClassifyMixin.VerticalShift: `np.arange(width)` has NumPy's default integer type (int64 on most platforms, int32 under NumPy 1 on Windows). The model's integers are unbounded, so it is faithful only when `offset` and `offset + width - 1` both fit that type. When `offset + width - 1` leaves the range, the sum wraps (width 3 with offset 2^63 - 1 gives NumPy [1, 1, 2], the model [1, 2, 0]). When `offset` itself does not fit, NumPy 2 raises OverflowError, and NumPy 1 builds a float or object array whose use as an index raises IndexError. None of these paths is modelled.
- ToClassifyMixin.HorizontalShift: the same limit applies to `np.arange(height) + offset`. Wrap-around, OverflowError and IndexError are not modelled.
- Default arguments: `crop` and `crop2` default to `inplace=True`, `split` to `"h"` and `"mid"`, and `blur` to size 5 and `"gauss"`. The model takes every argument explicitly.
- `get_corners` returns float32 values. These equal the integers for every size below 2^24.
- Foreign calls with no logic of the repository's own: `blend`, `channels`, `gaussian_blur`, `resize`, `full_resize`, `rotate90`, `rotate`, `equalize_hist`, `distance_transform`, `integral`, `get_circle`, `crop_at_circle`, `filter_objects`, `filter_border2border`, `warp`. Also left out are `ring`'s sampling after its guard, and the files of colour conversions, thresholds and morphology. These are all OpenCV primitives, floating point, or connected-component labelling.
