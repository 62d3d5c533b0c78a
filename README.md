# mmSolver core, modelled in Dafny

This project models the self-contained core of mayaMatchMoveSolver (mmSolver), a Maya plug-in for camera and object matchmove solving. It covers the following pieces.

- **The lens-distortion layer (mmlens).**
  - How one point is undistorted or redistorted. A point moves from unit space into diagonal-normalised space, then through the lens model, then back.
  - How the result is packed into 2 or 4 output values per pixel.
  - The strided buffer loop. It gives the same result when the input and output buffers are the same memory.
  - The identity grid (ST-map) synthesis.
  - How each lens family routes parameter indices to its fields.
  - The rescaled anamorphic degree-6 lens model's constructors, copies and setters, which mark the model Dirty.
  - The ST-map and distortion loops of the test helpers.
- **The image caches** (`image/` and `shape/`). Each holds a map and a recency list kept in step, with byte accounting, least-recently-used eviction, erase, capacity setting and the text brief, for both the CPU and the GPU half. The shape cache adds its pixel-data record.
- **mmmath**: lerp, normalise, cross product, infinite line intersection and the cosine between lines.
- **`mmConvertImage`**:
  - frame-number path expansion;
  - pixel-type guessing;
  - the same-path check;
  - the success and failure counters.
- **The solver's relationship tables** (errors, unknown parameters, marker-to-attribute and error-to-parameter relationships).
- **The Python tools:**
  - the nested-key configuration store;
  - the 3DEqualizer track importer's keyframe data, closest-frame lookup, comment removal and PFTrack parser;
  - the UV-track exporter's project-notes parsing, position test, rolling-shutter blend and version dispatch;
  - the standard solver's frame pairing, marker filter and frame lists;
  - keyframe chunking for smoothing;
  - the Nuke lens-file reader;
  - the solver window's callback registry;
  - the attribute-detail record update.
- **The scene-graph bake**: the flattened node list and the parent-index table.

Each `.dfy` file holds one module, named after the source unit it models. Shared helpers live in `wrappers.dfy` (Option and Result) and `strings.dfy` (string splitting, stripping, searching and lower-casing).

Code that updates state step by step is modelled with imperative Dafny:
- classes with `modifies` clauses, such as `ImageCache`, `Config`, `KeyframeData`, `SolverStandard`, `CallbackManager` and the lens model object;
- arrays for the distortion buffers;
- methods with loop invariants.

Each such method is proved against a specification function, whose properties are proved as lemmas. Pure code is modelled with datatypes, functions and lemmas.

Doubles are modelled as `real`. Foreign code is a parameter: LDPK's lens polynomials, Maya and 3DEqualizer queries, Python's `float()` and the graph library's topological sort.

## Model

| member | source | states |
|---|---|---|
| LruCache.Remove | src/mmSolver/image/ImageCache.cpp:583-586 | the key list after `remove(key)`: the key is gone, every other key is kept, and a duplicate-free list stays duplicate-free |
| LruCache.TouchValid | src/mmSolver/image/ImageCache.h:123-128 | moving a key to the back keeps the cache invariant, makes it the most recently used key and leaves entries and bytes in use alone |
| LruCache.FindHitOrMiss | src/mmSolver/shape/ImageCache.cpp:523-538 | a hit returns the stored value and makes the key the most recently used; a miss returns the default value and changes nothing |
| LruCache.EvictOneValid | src/mmSolver/shape/ImageCache.cpp:573-603 | evicting one entry reports false exactly on an empty list; otherwise the front key leaves and its bytes are subtracted; the invariant holds |
| LruCache.EraseValid | src/mmSolver/shape/ImageCache.cpp:692-711 | erase reports whether the key was present, removes it from map and list, subtracts its bytes and keeps the invariant |
| LruCache.EvictWhileValid | src/mmSolver/image/ImageCache.cpp:533-543 | the eviction loop keeps the invariant and stops once the new chunk fits or nothing is left; it evicts nothing when the chunk already fits |
| LruCache.EvictWhileFromFront | src/mmSolver/shape/ImageCache.cpp:655-665 | the eviction loop removes least recently used keys only: what remains is a suffix of the key list |
| LruCache.EvictEnoughValid | src/mmSolver/shape/ImageCache.cpp:638-668 | making room reports false exactly on an empty list; afterwards the chunk fits or the cache is empty, with the invariant kept |
| LruCache.InsertValid | src/mmSolver/shape/ImageCache.cpp:374-411 | after an insert the key maps to the new value, is the most recently used key, the invariant holds and the result is true |
| LruCache.InsertWithinCapacity | src/mmSolver/image/ImageCache.cpp:274-275 | the assertion after the insert (bytes in use within capacity) holds exactly when the new value alone fits the capacity |
| LruCache.AppendValid | src/mmSolver/image/ImageCache.cpp:279-283 | storing an absent key at the back of the list keeps the invariant |
| LruCache.EvictThenAppendValid | src/mmSolver/shape/ImageCache.cpp:374-411 | making room and then appending a key that is not cached keeps the invariant, and the key is at the back mapped to its value |
| LruCache.InsertTextureAbsent | src/mmSolver/image/ImageCache.cpp:313-382 | for a key that is not cached, a valid texture is stored at the back of the list and returned; an invalid one returns the default value and the key stays absent; the invariant holds either way |
| LruCache.InsertTextureValid | src/mmSolver/image/ImageCache.cpp:313-382 | the texture insert keeps the invariant; a valid texture returned is the key's entry at the back of the list; an invalid texture returns the default value and leaves a cached key untouched or an absent key absent |
| LruCache.SetCapacityAsWrittenOnlyStores | src/mmSolver/shape/ImageCache.h:504-523 | the capacity setter as written only stores the capacity: its eviction loop runs only when the key list is empty |
| LruCache.SetCapacityAsWrittenOverflows | src/mmSolver/image/ImageCache.h:266-276 | a valid cache of ten bytes under "a" exceeds a five-byte capacity after the setter as written |
| LruCache.SetCapacityFits | src/mmSolver/image/ImageCache.h:253-277 | the intended setter stores the capacity and evicts from the front until the bytes in use fit it; it evicts nothing when they already fit |
| LruCache.UsedPercent | src/mmSolver/image/ImageCache.cpp:206-211 | the used percentage is 0 for a zero capacity, between 0 and 100 when the bytes in use fit, and exactly 100 for a full cache |
| LruCache.CacheBrief | src/mmSolver/image/ImageCache.cpp:193-219 | the brief's megabyte figures are the floors of capacity and bytes in use over bytes per megabyte, with the count and percentage passed through |
| LruCache.BriefAsWrittenMisreports | src/mmSolver/image/ImageCache.cpp:216 | the brief as written shows an empty 1000 MB cache with a capacity of 0 MB, the intended brief shows 1000 MB |
| ImageCache.ImageCache.constructor | src/mmSolver/image/ImageCache.h:115-121 | a new cache has minimum item counts of 1, 200 MB of GPU and 1000 MB of CPU capacity, and empty halves |
| ImageCache.ImageCache.SetGpuMinItemCount | src/mmSolver/image/ImageCache.h:150-159 | only the GPU minimum item count changes |
| ImageCache.ImageCache.SetCpuMinItemCount | src/mmSolver/image/ImageCache.h:161-170 | only the CPU minimum item count changes |
| ImageCache.ImageCache.CacheBriefs | src/mmSolver/image/ImageCache.cpp:221-235 | the GPU and CPU briefs count the entries of each half and show 0 percent for a zero capacity |
| ImageCache.ImageCache.CpuFind | src/mmSolver/image/ImageCache.cpp:401-416 | the CPU value and new CPU half are those of `LruCache.Find`, with the invariant kept |
| ImageCache.ImageCache.GpuFind | src/mmSolver/image/ImageCache.cpp:384-399 | the GPU value and new GPU half are those of `LruCache.Find`, with the invariant kept |
| ImageCache.ImageCache.CpuEvictOne | src/mmSolver/image/ImageCache.cpp:451-481 | the result and new CPU half are those of `LruCache.EvictOne` |
| ImageCache.ImageCache.GpuEvictOne | src/mmSolver/image/ImageCache.cpp:418-449 | the result and new GPU half are those of `LruCache.EvictOne` |
| ImageCache.ImageCache.CpuEvictEnoughForNewEntry | src/mmSolver/image/ImageCache.cpp:516-546 | the loop leaves the CPU half and result of `LruCache.EvictEnough` |
| ImageCache.ImageCache.GpuEvictEnoughForNewEntry | src/mmSolver/image/ImageCache.cpp:483-514 | the loop leaves the GPU half and result of `LruCache.EvictEnough` |
| ImageCache.ImageCache.CpuErase | src/mmSolver/image/ImageCache.cpp:570-589 | the result and new CPU half are those of `LruCache.Erase` |
| ImageCache.ImageCache.GpuErase | src/mmSolver/image/ImageCache.cpp:548-568 | the result and new GPU half are those of `LruCache.Erase` |
| ImageCache.ImageCache.CpuInsert | src/mmSolver/image/ImageCache.cpp:252-289 | the result and new CPU half are those of `LruCache.Insert` |
| ImageCache.ImageCache.GpuInsert | src/mmSolver/image/ImageCache.cpp:313-382 | the texture returned and new GPU half are those of `LruCache.InsertTexture` |
| ImageCache.ImageCache.SetCpuCapacityBytes | src/mmSolver/image/ImageCache.h:253-277 | the CPU half becomes `LruCache.SetCapacity` of the old one |
| ImageCache.ImageCache.SetGpuCapacityBytes | src/mmSolver/image/ImageCache.h:226-251 | the GPU half becomes `LruCache.SetCapacity` of the old one |
| ShapeImageCache.BytesPerChannel | src/mmSolver/shape/ImageCache.h:61-77 | one byte per channel for 8-bit data, four for 32-bit floats, zero for any other type |
| ShapeImageCache.ByteCountAsWrittenWraps | src/mmSolver/shape/ImageCache.h:162-166 | a 16384 x 16384 four-channel float image, within the field widths, has a byte count of 0 as written while its true size is 2^32 bytes |
| ShapeImageCache.ByteCount | src/mmSolver/shape/ImageCache.h:162-166 | the byte count is non-zero exactly when width, height and channels are non-zero and the type is 8-bit or float; for 8-bit data it is width times height times channels |
| ShapeImageCache.ValidWithoutBytes | src/mmSolver/shape/ImageCache.h:150-154 | validity admits the end-marker type, whose byte count is 0 |
| ShapeImageCache.AllocatePixels | src/mmSolver/shape/ImageCache.h:110-146 | allocation stores the new dimensions and succeeds exactly when the byte count is non-zero and the allocation succeeds; on failure the pixel data is unchanged |
| ShapeImageCache.AllocatedIsValid | src/mmSolver/shape/ImageCache.h:110-154 | pixel data allocated successfully is valid and has a non-zero byte count |
| ShapeImageCache.NewImageCache | src/mmSolver/shape/ImageCache.h:361-367 | the shape's cache starts empty with 1000e6 CPU and 200e6 GPU bytes of capacity, measuring values by their byte counts |
| MathUtils.Lerp | lib/cppbind/mmcore/src/mmmath.cpp:49-51 | the blend gives the minimum value at mix 0 and the maximum value at mix 1 |
| MathUtils.LerpBetween | lib/cppbind/mmcore/src/mmmath.cpp:49-51 | for a mix between 0 and 1 the blend stays between the two end values |
| MathUtils.Normalize2 | lib/cppbind/mmcore/src/mmmath.cpp:75-83 | a zero-length 2D vector normalises to the zero vector; otherwise the result times the length is the input |
| MathUtils.Normalize3 | lib/cppbind/mmcore/src/mmmath.cpp:85-92 | the same for 3D vectors |
| MathUtils.Cross3 | lib/cppbind/mmcore/src/mmmath.cpp:132-137 | the cross product is perpendicular to both operands |
| MathUtils.InfiniteLineIntersection | lib/cppbind/mmcore/src/mmmath.cpp:414-458 | true exactly for non-parallel lines; parallel lines give false with the midpoint of A and B when they coincide and the origin otherwise |
| MathUtils.IntersectionOnBothLines | lib/cppbind/mmcore/src/mmmath.cpp:447-457 | a reported intersection point lies on the line through A and B and on the line through C and D |
| MathUtils.CosineAngleBetweenLines | lib/cppbind/mmcore/src/mmmath.cpp:461-471 | the cosine is non-negative and is zero exactly when the normalised directions are perpendicular |
| ConvertImage.ToI32 | src/mmSolver/cmd/MMConvertImageCmd.cpp:108-110 | the cast of a `uint32_t` to `int` keeps values below 2^31 and makes larger ones negative |
| ConvertImage.PadNumber | src/mmSolver/cmd/MMConvertImageCmd.cpp:104-113 | the padded frame number is a digit string with the frame number's value, ending in the unpadded number, as long as the padding taken as a signed `int` when that is longer and otherwise as long as the number |
| ConvertImage.NarrowPaddingIsNumber | src/mmSolver/cmd/MMConvertImageCmd.cpp:108-113 | a padding that as a signed `int` is no longer than the number, negative ones included, adds no zeros |
| ConvertImage.MinusOnePaddingPadsNothing | src/mmSolver/cmd/MMConvertImageCmd.cpp:104-113 | a frame padding of -1 becomes 4294967295 as `uint32_t` and then pads nothing: the '#' run becomes the bare frame number |
| ConvertImage.ExpandWithoutHash | src/mmSolver/cmd/MMConvertImageCmd.cpp:90-95 | a path without '#' is returned unchanged |
| ConvertImage.ExpandWithHash | src/mmSolver/cmd/MMConvertImageCmd.cpp:97-118 | a path with '#' keeps the text before the first and after the last '#' and has the padded frame number in between |
| ConvertImage.GuessOutputFormatPixelType | src/mmSolver/cmd/MMConvertImageCmd.cpp:154-170 | the pixel type is float exactly when the lower-cased format is "exr" or "hdr" |
| ConvertImage.GuessOutputFormatIgnoresCase | src/mmSolver/cmd/MMConvertImageCmd.cpp:158-159 | lower-casing the format first does not change the guess |
| ConvertImage.Extension | src/mmSolver/cmd/MMConvertImageCmd.cpp:179-181 | the extension, the last split on '.', has no '.' and ends the name |
| ConvertImage.GuessFilePathPixelType | src/mmSolver/cmd/MMConvertImageCmd.cpp:172-186 | the pixel type is float exactly when the lower-cased path's extension is "exr" or "hdr" |
| ConvertImage.ConvertImageStatus | src/mmSolver/cmd/MMConvertImageCmd.cpp:237-243 | identical source and destination paths fail; otherwise the status is that of the image I/O |
| ConvertImage.CountSucceeded | src/mmSolver/cmd/MMConvertImageCmd.cpp:563-622 | no more frames succeed than were tried |
| ConvertImage.DoIt | src/mmSolver/cmd/MMConvertImageCmd.cpp:560-637 | the loop counts each frame of the inclusive range once, succeeded plus failed is the total, the successes are those of the frame model, and the result is false exactly when a frame failed or the range is empty |
| StringUtils.IndexOf | src/mmSolver/cmd/MMConvertImageCmd.cpp:90 | the first position of the character, or -1 exactly when it does not occur |
| StringUtils.LastIndexOf | src/mmSolver/cmd/MMConvertImageCmd.cpp:97 | the last position of the character, or -1 exactly when it does not occur |
| StringUtils.ToLower | src/mmSolver/cmd/MMConvertImageCmd.cpp:158-159 | lower-casing keeps the length |
| StringUtils.ToLowerAt | src/mmSolver/cmd/MMConvertImageCmd.cpp:158-159 | lower-casing maps each character on its own |
| StringUtils.Partition | python/mmSolver/tools/loadlens/lib.py:61 | the three parts concatenate to the input; either the separator is found at the end of the first part, which holds no earlier occurrence, or the input has no separator and is all in the first part |
| StringUtils.Split | python/mmSolver/tools/loadlens/lib.py:70 | splitting gives at least one part, no part holds the separator, and joining the parts gives the input back |
| StringUtils.SplitOfJoin | python/mmSolver/tools/loadlens/lib.py:70 | splitting a join of separator-free parts gives the parts back |
| StringUtils.RemoveChar | python/mmSolver/tools/loadlens/lib.py:100 | removing a character leaves no occurrence of it and keeps every other character |
| StringUtils.Strip | python/mmSolver/tools/loadlens/lib.py:61 | the stripped text is the input's characters between a leading run and a trailing run of whitespace, and it neither starts nor ends with whitespace: only whitespace at the ends is removed |
| StringUtils.StripEnds | python/mmSolver/tools/loadlens/lib.py:61 | stripping the left and then the right end drops a prefix and a suffix made only of whitespace and keeps what is between |
| StringUtils.StripKeepsOut | python/mmSolver/tools/loadlens/lib.py:61 | stripping adds no character: a character absent from the input is absent from the stripped text |
| StringUtils.FindIsContains | python/mmSolver/tools/loadlens/lib.py:74 | searching finds a position exactly when the text contains the substring |
| StringUtils.NumberToString | src/mmSolver/cmd/MMConvertImageCmd.cpp:104 | the decimal text of a number is a digit string with that value and no leading zero |
| StringUtils.ParseInt | python/mmSolver/tools/loadlens/lib.py:83 | a digit string parses to its value, '-' and digits to the negated value, '+' and digits to the value; anything that parses is digits with an optional sign |
| DistortionOperations.RedistortUndistortRoundTrip | lib/cppbind/mmlens/src/distortion_operations.h:31-95 | when the unit/DN conversions and the lens's inverse are exact inverses, redistorting an undistorted unit point gives the point back |
| DistortionOperations.PixelValues | lib/cppbind/mmlens/src/distortion_operations.h:98-176 | a single direction writes the two coordinates of its point; both directions write four values, undistorted first for UndistortAndRedistort and redistorted first for RedistortAndUndistort; values are shifted to marker space except for 32-bit output |
| DistortionOperations.MarkerSpaceRoundTrip | lib/cppbind/mmlens/src/distortion_operations.h:113-115 | a marker-space point undistorted into a 64-bit buffer and read back, shifted by 0.5, for redistortion returns to the same marker-space point |
| DistortionOperations.ApplyToPixel | lib/cppbind/mmlens/src/distortion_operations.h:100-176 | the pixel's values are written at the output position and every other output element is unchanged |
| DistortionOperations.ApplyToBufferPoint | lib/cppbind/mmlens/src/distortion_operations.h:197-217 | one iteration reads point i, shifted from marker to unit space, before writing its pixel at i times the output stride, extending the pass by one point |
| DistortionOperations.ApplyToBufferPoints | lib/cppbind/mmlens/src/distortion_operations.h:196-218 | the loop over the first n points leaves the output of the pass, for separate or shared input and output memory |
| DistortionOperations.ApplyToBuffer | lib/cppbind/mmlens/src/distortion_operations.h:188-220 | the output is the pass over in_size / in_stride points; for separate buffers, or a shared one whose output stride does not pass the input stride, it is every point's pixel written at its own position |
| DistortionOperations.GridCorners | lib/cppbind/mmlens/src/distortion_operations.h:233-236 | the first and last cells of the identity grid sit at the unit square's corners (0, 0) and (1, 1) |
| DistortionOperations.GridIncreasing | lib/cppbind/mmlens/src/distortion_operations.h:233-234 | along a row the identity grid's x coordinate increases strictly |
| DistortionOperations.CellsBefore | lib/cppbind/mmlens/src/distortion_operations.h:229-231 | the pixels of the cells before (column, row) in row-major order number row times width plus column, all of the pixel width |
| DistortionOperations.CellAt | lib/cppbind/mmlens/src/distortion_operations.h:231 | cell (c, r) is pixel r times width plus c of the row-major order |
| DistortionOperations.FromIdentityCell | lib/cppbind/mmlens/src/distortion_operations.h:231-244 | one cell writes the pixel of its unit-space grid point at its row-major index times the stride |
| DistortionOperations.FromIdentityRow | lib/cppbind/mmlens/src/distortion_operations.h:230-245 | the column loop writes a whole row of cells |
| DistortionOperations.FromIdentity | lib/cppbind/mmlens/src/distortion_operations.h:223-248 | the output holds every grid cell's pixel at its row-major position, and nothing else changes |
| DistortionProcess.CreateDistortion | lib/cppbind/mmlens/src/distortion_process.cpp:130-141 | creating a model from a parameter struct keeps the family and the model's internal state |
| DistortionProcess.CreateDistortionFields | lib/cppbind/mmlens/src/distortion_process.cpp:335-354 | each struct field is read back where its index routes, and places no field routes keep their initial value |
| DistortionProcess.CreateDistortionCovers | lib/cppbind/mmlens/src/distortion_process.cpp:445-466 | every index the create function uses is stored, and a rescaled family's last field is the rescale factor |
| DistortionProcess.AsLens | lib/cppbind/mmlens/src/distortion_process.cpp:47-48 | the lens seen by the buffer loops evaluates the created, initialised model and its guess-free inverse |
| DistortionProcess.Dispatched | lib/cppbind/mmlens/src/distortion_process.cpp:50-75 | every direction except RedistortAndUndistort is dispatched, to itself |
| DistortionProcess.ApplyBufferImpl | lib/cppbind/mmlens/src/distortion_process.cpp:80-125 | an undispatched direction leaves the output unchanged; otherwise the output is the buffer pass of the created model |
| DistortionProcess.ApplyIdentityImpl | lib/cppbind/mmlens/src/distortion_process.cpp:35-76 | an undispatched direction leaves the output unchanged; otherwise the output is the identity grid of the created model |
| DistortionStructs.Route | lib/cppbind/mmlens/src/distortion_structs.h:452-465 | Classic sends every index to its coefficients; the other families send indices below the coefficient count to the coefficients, the next ones to phi and bending (radial) or to rotation, squeeze x, squeeze y and rescale (anamorphic), and ignore the rest |
| DistortionStructs.RouteInjective | lib/cppbind/mmlens/src/distortion_structs.h:205-216 | distinct parameter indices of a family are stored in distinct places |
| DistortionStructs.AssignRead | lib/cppbind/mmlens/src/distortion_structs.h:208-209 | after a set the target holds the value (the rotation converted from degrees to radians) and every other target is unchanged |
| DistortionStructs.SetAllRead | lib/cppbind/mmlens/src/distortion_process.cpp:557-584 | after setting the first n indices in order, each holds its own value and places no earlier index routes to are untouched |
| DistortionStructs.Initialized | lib/cppbind/mmlens/src/distortion_structs.h:467-486 | Classic and radial models are unchanged; anamorphic models take the camera's pixel aspect and rebuild both concatenated extenders from the current parameters |
| DistortionStructs.InitializedIdempotent | lib/cppbind/mmlens/src/distortion_structs.h:218-226 | initialising twice with the same camera is initialising once |
| DistortionStructs.EvalInvUsesPointAsGuess | lib/cppbind/mmlens/src/distortion_structs.h:235-261 | with exactly invertible extenders, the inverse without a guess is the inverse with the point as its own guess |
| DistortionStructs.EvalInvUndoesEval | lib/cppbind/mmlens/src/distortion_structs.h:228-249 | with exactly inverting building blocks, distorting an undistorted point gives it back |
| DistortionStructs.Distortion.constructor | lib/cppbind/mmlens/src/distortion_structs.h:203 | a new wrapped model is in LDPK's initial state |
| DistortionStructs.Distortion.SetParameter | lib/cppbind/mmlens/src/distortion_structs.h:205-216 | the value is stored where the family routes the index and nothing else changes |
| DistortionStructs.Distortion.InitializeParameters | lib/cppbind/mmlens/src/distortion_structs.h:218-226 | the new state is the initialised state of the old one |
| LensModel.Set | lib/cppbind/mmlens/include/mmlens/lens_model_3de_anamorphic_deg_6_rotate_squeeze_xy_rescaled.h:117-123 | a setter keeps the type tag and the well-formed field layout |
| LensModel.SetKeepsOther | lib/cppbind/mmlens/include/mmlens/lens_model_3de_anamorphic_deg_6_rotate_squeeze_xy_rescaled.h:117-123 | a setter leaves every other field's value as it was |
| LensModel.SetThenGet | lib/cppbind/mmlens/include/mmlens/lens_model_3de_anamorphic_deg_6_rotate_squeeze_xy_rescaled.h:117-123 | after a setter its getter returns the value and every other getter is unchanged |
| LensModel.SetState | lib/cppbind/mmlens/include/mmlens/lens_model_3de_anamorphic_deg_6_rotate_squeeze_xy_rescaled.h:118-122 | the model changes exactly when the value differs, and then its state becomes dirty |
| LensModel.SetIdempotent | lib/cppbind/mmlens/include/mmlens/lens_model_3de_anamorphic_deg_6_rotate_squeeze_xy_rescaled.h:117-123 | setting the same value twice is setting it once |
| LensModel.DefaultValues | lib/cppbind/mmlens/include/mmlens/lens_model_3de_anamorphic_deg_6_rotate_squeeze_xy_rescaled.h:45-46 | the default field values are 19 zeros then 1 for squeeze x, squeeze y and rescale |
| LensModel.DefaultModel | lib/cppbind/mmlens/include/mmlens/lens_model_3de_anamorphic_deg_6_rotate_squeeze_xy_rescaled.h:43-46 | the default model is tagged as the rescaled degree 6 model |
| LensModel.FromValuesAsWritten | lib/cppbind/mmlens/include/mmlens/lens_model_3de_anamorphic_deg_6_rotate_squeeze_xy_rescaled.h:48-66 | the 22-argument constructor as written keeps the given state, tags the model as the non-rescaled degree 6 type, and each getter returns its argument in the declared order |
| LensModel.FromValuesAsWrittenMislabels | lib/cppbind/mmlens/include/mmlens/lens_model_3de_anamorphic_deg_6_rotate_squeeze_xy_rescaled.h:60 | the 22-argument constructor given the default values has a different tag from the default-constructed model |
| LensModel.FromValues | lib/cppbind/mmlens/include/mmlens/lens_model_3de_anamorphic_deg_6_rotate_squeeze_xy_rescaled.h:48-66 | the corrected 22-argument constructor is tagged like the default model and each getter returns its argument |
| LensModel.FromDefaultValues | lib/cppbind/mmlens/include/mmlens/lens_model_3de_anamorphic_deg_6_rotate_squeeze_xy_rescaled.h:43-66 | the corrected constructor given the default values is the default model |
| LensModel.LensModel3deAnamorphicDeg6RotateSqueezeXYRescaled.constructor | lib/cppbind/mmlens/include/mmlens/lens_model_3de_anamorphic_deg_6_rotate_squeeze_xy_rescaled.h:43-46 | a default-constructed object holds the default model |
| LensModel.LensModel3deAnamorphicDeg6RotateSqueezeXYRescaled.FromFields | lib/cppbind/mmlens/include/mmlens/lens_model_3de_anamorphic_deg_6_rotate_squeeze_xy_rescaled.h:48-66 | an object built from 22 values holds the corrected model of them |
| LensModel.LensModel3deAnamorphicDeg6RotateSqueezeXYRescaled.Copy | lib/cppbind/mmlens/include/mmlens/lens_model_3de_anamorphic_deg_6_rotate_squeeze_xy_rescaled.h:68-79 | a copy holds the same type, state and field values as the original |
| LensModel.LensModel3deAnamorphicDeg6RotateSqueezeXYRescaled.Clone | lib/cppbind/mmlens/include/mmlens/lens_model_3de_anamorphic_deg_6_rotate_squeeze_xy_rescaled.h:81-89 | a clone is a new object holding the same model |
| LensModel.LensModel3deAnamorphicDeg6RotateSqueezeXYRescaled.SetField | lib/cppbind/mmlens/include/mmlens/lens_model_3de_anamorphic_deg_6_rotate_squeeze_xy_rescaled.h:117-291 | a setter leaves the object holding `LensModel.Set` of its old model |
| StridedBuffer.WriteAllAt | lib/cppbind/mmlens/src/distortion_operations.h:210-211 | with a stride at least the pixel width, each slot holds its own pixel's values |
| StridedBuffer.WriteAllGap | lib/cppbind/mmlens/src/distortion_operations.h:210-211 | values of a slot beyond the pixel width are not written |
| StridedBuffer.WriteAllTail | lib/cppbind/mmlens/src/distortion_operations.h:210-211 | nothing from the first unwritten slot on is written |
| StridedBuffer.BufferPixelAt | lib/cppbind/mmlens/src/distortion_operations.h:197-202 | pixel k of a pass is computed from the two input values at k times the input stride |
| StridedBuffer.PassSeparate | lib/cppbind/mmlens/src/distortion_operations.h:196-218 | a pass over separate memory writes each input point's pixel to its own slot |
| StridedBuffer.PassTail | lib/cppbind/mmlens/src/distortion_operations.h:196-218 | a pass over the first n points leaves everything from slot n on alone |
| StridedBuffer.AliasSafe | lib/cppbind/mmlens/src/distortion_operations.h:204-209 | reading each point before writing its pixel makes in-place use safe: with output slots no wider than input slots, the shared-memory pass equals a pass reading a separate copy |
| StridedBuffer.PassClosedForm | lib/cppbind/mmlens/src/distortion_operations.h:178-187 | a pass over separate memory, or over shared memory whose output stride does not pass the input stride, writes every input point's pixel to its own slot |
| StridedBuffer.PassStep | lib/cppbind/mmlens/src/distortion_operations.h:196-218 | one more point of a pass reads its input (what earlier points left when shared) and then writes its slot |
| StMap.StMapCell | lib/cppbind/mmlens/tests/common.h:52-73 | one cell writes its x and y (shifted by -0.5 for NDC) at (row * width + column) * channels |
| StMap.StMapRow | lib/cppbind/mmlens/tests/common.h:51-84 | the column loop writes every cell of a row |
| StMap.GenerateStMapIdentity | lib/cppbind/mmlens/tests/common.h:44-88 | the buffer has width * height * channels values, zero-initialised, with every cell's grid coordinate in its first two channels |
| StMap.StMapEntry | lib/cppbind/mmlens/tests/common.h:47-73 | cell (c, r) holds column / (width - 1) and row / (height - 1) in channels 0 and 1 (minus 0.5 for NDC) and zero in every other channel |
| StMap.LoopCell | lib/cppbind/mmlens/tests/common.h:101-125 | one cell reads x and y at its input index, applies the model and writes x and y at its output index |
| StMap.WritePair | lib/cppbind/mmlens/tests/common.h:124-125 | channels 0 and 1 of the output cell are written and nothing else |
| StMap.LoopRow | lib/cppbind/mmlens/tests/common.h:100-126 | the column loop processes every cell of a row |
| StMap.ApplyDistortionLoop | lib/cppbind/mmlens/tests/common.h:94-128 | the output is the pass of the model over width * height cells with independent input and output channel counts, for separate or shared buffers |
| StMap.LoopResult | lib/cppbind/mmlens/tests/common.h:118-125 | with separate buffers, output cell k holds the undistorted or distorted input point k in channels 0 and 1 and keeps its old values in the other channels |
| AdjustRelationships.PairsMembers | src/mmSolver/adjust/adjust_relationships.cpp:110-130 | a marker/frame pair is listed exactly when its marker and frame are in range and it is enabled with a positive weight |
| AdjustRelationships.MaxBounds | src/mmSolver/adjust/adjust_relationships.cpp:137-148 | the per-frame maximum weight exists for a frame with a counting pair, bounds each counting weight on it and is positive |
| AdjustRelationships.NormalisedWeightBounds | src/mmSolver/adjust/adjust_relationships.cpp:166-182 | every listed pair's weight divided by its frame's maximum lies in (0, 1] |
| AdjustRelationships.CountPositive | src/mmSolver/adjust/adjust_relationships.cpp:186-200 | no more attributes count than there are |
| AdjustRelationships.CountMarkerFrames | src/mmSolver/adjust/adjust_relationships.cpp:113-163 | one marker's frame loop appends that marker's counting pairs and keeps the output lists and the maximum-weight map in step |
| AdjustRelationships.PairsSound | src/mmSolver/adjust/adjust_relationships.cpp:110-130 | every listed marker/frame pair is in range and enabled with a positive weight |
| AdjustRelationships.PairsComplete | src/mmSolver/adjust/adjust_relationships.cpp:110-130 | every in-range marker/frame pair enabled with a positive weight is listed |
| AdjustRelationships.NormaliseWeights | src/mmSolver/adjust/adjust_relationships.cpp:166-182 | the weight loop divides each listed pair's weight by the largest weight on its frame, which is positive |
| AdjustRelationships.CountPositiveWeights | src/mmSolver/adjust/adjust_relationships.cpp:186-216 | the stiffness and smoothness loops count the positive weights |
| AdjustRelationships.CountUpNumberOfErrors | src/mmSolver/adjust/adjust_relationships.cpp:75-221 | the error pairs are the counting pairs in marker-then-frame order; the marker, position and weight lists follow them; weights are normalised by the frame maximum into (0, 1]; the error counts add up from errors per marker and the positive stiffness and smoothness weights |
| AdjustRelationships.AddAttrParams | src/mmSolver/adjust/adjust_relationships.cpp:270-326 | one attribute appends its parameters and its masks, bounds and weights in step |
| AdjustRelationships.ClassifyAttr | src/mmSolver/adjust/adjust_relationships.cpp:223-337 | one attribute adds as many unknowns as it has parameters and goes into the list its animated and camera flags pick |
| AdjustRelationships.CountUpNumberOfUnknownParameters | src/mmSolver/adjust/adjust_relationships.cpp:223-337 | the parameters are those of each attribute in order, their count is the number of unknowns, every parameter has its mask, bounds and weight 1, and the attributes are sorted into the four lists |
| AdjustRelationships.AttrParamsShape | src/mmSolver/adjust/adjust_relationships.cpp:270-315 | an animated attribute gives one parameter per frame, masking in its own frame only; a free static one gives one parameter for frame -1 masking in every frame; any other gives none |
| AdjustRelationships.ClassifyCounts | src/mmSolver/adjust/adjust_relationships.cpp:296-329 | each attribute lands in one of the four lists exactly when it is animated or free to change |
| AdjustRelationships.GetMarkerToAttributeRelationship | src/mmSolver/adjust/adjust_relationships.cpp:475-546 | the table has a row per marker and a column per attribute, true exactly when the affects plug is missing or holds 1 |
| AdjustRelationships.FindErrorToParameterRelationship | src/mmSolver/adjust/adjust_relationships.cpp:565-617 | for each error pair and parameter, the entry is true exactly when the error's marker affects the parameter's attribute and the parameter is static or its frame approximately equals the error's frame |
| Config.NonEmpty | python/mmSolver/utils/config.py:86 | keeps exactly the non-empty parts, in order, and keeps a list of non-empty parts as it is |
| Config.SplitKey | python/mmSolver/utils/config.py:79-87 | every part of a split key is non-empty and free of '/' |
| Config.SplitKeyOfJoin | python/mmSolver/utils/config.py:79-87 | joining non-empty '/'-free names with '/' splits back into the same names |
| Config.Exists | python/mmSolver/utils/config.py:172-195 | true exactly when every step of the key path is present in the nested dictionaries |
| Config.GetValue | python/mmSolver/utils/config.py:198-234 | the value at the key path when it exists, otherwise the default |
| Config.BuildUpdate | python/mmSolver/utils/config.py:279-288 | the loop over the reversed key list builds the value wrapped in one dictionary per key, innermost first |
| Config.SetValue | python/mmSolver/utils/config.py:261-291 | the result is the data with the nested update merged in, level by level |
| Config.PathOpenMergeable | python/mmSolver/utils/config.py:237-258 | when every step but the last is a dictionary or absent, the merge of a non-dictionary value completes |
| Config.MergeAbsentMergeable | python/mmSolver/utils/config.py:253-256 | merging a nested update into an empty dictionary always completes |
| Config.MergeIntoEmpty | python/mmSolver/utils/config.py:253-256 | merging a nested value into an empty dictionary puts the value at its path |
| Config.GetAfterSet | python/mmSolver/utils/config.py:261-291 | after setting a non-dictionary value on an open path, the lookup of that path gives the value |
| Config.SetKeepsOtherKeys | python/mmSolver/utils/config.py:289-290 | setting a value leaves every other top-level entry present or absent and unchanged |
| Config.SetEmptyKeyKeepsData | python/mmSolver/utils/config.py:279-290 | an empty key leaves the data as it was |
| Config.Config.constructor | python/mmSolver/utils/config.py:321-326 | a new config has the path, no values, no change, auto-read on and auto-write off |
| Config.Config.SetAutoRead | python/mmSolver/utils/config.py:331-344 | sets the auto-read flag and nothing else |
| Config.Config.SetAutoWrite | python/mmSolver/utils/config.py:349-363 | sets the auto-write flag and nothing else |
| Config.Config.SetFilePath | python/mmSolver/utils/config.py:368-388 | the same path changes nothing; a new path replaces the path and drops the values and the changed flag |
| Config.Config.Read | python/mmSolver/utils/config.py:394-399 | the values become the file's data and the config counts as unchanged |
| Config.Config.Write | python/mmSolver/utils/config.py:401-404 | the config counts as unchanged |
| Config.Config.ExistsKey | python/mmSolver/utils/config.py:406-409 | whether the key path exists in the config's values |
| Config.Config.GetConfigValue | python/mmSolver/utils/config.py:411-423 | with auto-read on and no values the file is read first; no values give the default, otherwise the value at the path or the default |
| Config.Config.SetConfigValue | python/mmSolver/utils/config.py:425-433 | the update is merged into a copy of the values (an empty dictionary when they are not one) and the config is marked changed; an update that cannot complete leaves it as it was |
| Config.ConfigSetThenGet | python/mmSolver/utils/config.py:411-433 | after setting a non-dictionary value on an open path, the values are not empty and the path holds the value |
| ImportTracks.Sort | share/3dequalizer/scriptdb/import_tracks_mmsolver.py:152-154 | the frame numbers sorted: the same frames, increasing when there are no repeats |
| ImportTracks.FormatManager.constructor | share/3dequalizer/scriptdb/import_tracks_mmsolver.py:182-183 | a new registry has no formats |
| ImportTracks.FormatManager.RegisterFormat | share/3dequalizer/scriptdb/import_tracks_mmsolver.py:185-188 | a name already registered keeps its first class, a new one is appended; the call always succeeds |
| ImportTracks.FormatManager.GetFormats | share/3dequalizer/scriptdb/import_tracks_mmsolver.py:190-195 | the registered classes, one per name, in registration order |
| ImportTracks.ClosestUnique | share/3dequalizer/scriptdb/import_tracks_mmsolver.py:142-178 | under the lower-key tie rule, the closest frame is unique |
| ImportTracks.ClosestOfKey | share/3dequalizer/scriptdb/import_tracks_mmsolver.py:142-178 | a frame that is a key is its own closest frame |
| ImportTracks.GetClosestFrame | share/3dequalizer/scriptdb/import_tracks_mmsolver.py:142-178 | the result is a key nearest to the frame, the lower one on a tie |
| ImportTracks.KeyframeData.constructor | share/3dequalizer/scriptdb/import_tracks_mmsolver.py:206-211 | a new keyframe set has no values and no cached pairs |
| ImportTracks.KeyframeData.GetValue | share/3dequalizer/scriptdb/import_tracks_mmsolver.py:238-251 | the value on the frame, else the value on a closest key; nothing only when there are no keys |
| ImportTracks.KeyframeData.GetKeyframeValues | share/3dequalizer/scriptdb/import_tracks_mmsolver.py:253-275 | the (frame, value) pairs in frame order, cached until the data changes |
| ImportTracks.KeyframeData.GetTimes | share/3dequalizer/scriptdb/import_tracks_mmsolver.py:277-285 | the frames with values, in increasing order |
| ImportTracks.KeyframeData.GetValues | share/3dequalizer/scriptdb/import_tracks_mmsolver.py:287-295 | the values, in frame order |
| ImportTracks.KeyframeData.GetStartFrame | share/3dequalizer/scriptdb/import_tracks_mmsolver.py:213-217 | None without keys, else the smallest frame with a value |
| ImportTracks.KeyframeData.GetEndFrame | share/3dequalizer/scriptdb/import_tracks_mmsolver.py:219-223 | None without keys, else the largest frame with a value |
| ImportTracks.KeyframeData.SetValue | share/3dequalizer/scriptdb/import_tracks_mmsolver.py:309-316 | stores the value on the frame, adds a new frame to the keys, drops the cached pairs and succeeds |
| ImportTracks.FillOccludedFramesAsWritten | share/3dequalizer/scriptdb/import_tracks_mmsolver.py:1210-1229 | every frame from the first to the last with data gets enable 1 or 0, and the weights are left alone; an empty frame list is an error |
| ImportTracks.FillOccludedFrames | share/3dequalizer/scriptdb/import_tracks_mmsolver.py:1210-1229 | as written, and every frame without data also gets weight 0 |
| ImportTracks.FillFrame | share/3dequalizer/scriptdb/import_tracks_mmsolver.py:1224-1228 | one frame of the intended fill: its enable flag, and weight 0 when it has no data |
| ImportTracks.EnableFlagsFrames | share/3dequalizer/scriptdb/import_tracks_mmsolver.py:1224-1226 | between the first and last frame, enable is 1 exactly on the frames with data |
| ImportTracks.WeightZeroOnOccluded | share/3dequalizer/scriptdb/import_tracks_mmsolver.py:1227-1228 | the intended fill zeroes every occluded frame's weight and keeps the others |
| ImportTracks.OccludedFrameKeepsWeight | share/3dequalizer/scriptdb/import_tracks_mmsolver.py:1227-1228 | as written, a marker seen on frames 1 and 3 is disabled on frame 2 but reads weight 1 there through the closest frame |
| ImportTracks.CleanLine | share/3dequalizer/scriptdb/import_tracks_mmsolver.py:717-722 | a comment line gives nothing, any other line one piece of text without '#' |
| ImportTracks.CleanLines | share/3dequalizer/scriptdb/import_tracks_mmsolver.py:715-723 | gives at most as many lines as it is given, none holding '#' |
| ImportTracks.RemoveCommentsFromLines | share/3dequalizer/scriptdb/import_tracks_mmsolver.py:715-723 | the loop gives the lines stripped, comment lines dropped and text cut at '#' |
| ImportTracks.CleanLineWithoutHash | share/3dequalizer/scriptdb/import_tracks_mmsolver.py:717-722 | a line without '#' is kept, stripped |
| ImportTracks.ParseFrameLine | share/3dequalizer/scriptdb/import_tracks_mmsolver.py:814-835 | a frame line parses exactly when it has 4 or 5 fields and the frame, x and y parse, giving u = (x + 0.5) / width and v = (y + 0.5) / height |
| ImportTracks.ParsePFTrack | share/3dequalizer/scriptdb/import_tracks_mmsolver.py:735-860 | a zero image size and an empty file are errors, and every parsed track has at least one point |
| ImportTracks.ReadTracker | share/3dequalizer/scriptdb/import_tracks_mmsolver.py:766-848 | one tracker is read past its name line, is named by that line without its quotes, and has at least one point |
| ImportTracks.ReadFramePoints | share/3dequalizer/scriptdb/import_tracks_mmsolver.py:810-846 | the frame loop reads exactly the given number of lines after the count, each parsed in order into its point, and a file that ends early is an error |
| ImportTracks.DetermineFormatVersion | share/3dequalizer/scriptdb/import_tracks_mmsolver.py:1092-1107 | no data gives version 1, otherwise the version field, or -1 when it is missing |
| UvTrackFormat.RemoveChars | 3dequalizer/python/uvtrack_format.py:110-112 | removing the whitespace characters one by one leaves none of them and keeps every other character |
| UvTrackFormat.KeepChars | 3dequalizer/python/uvtrack_format.py:110-112 | keeping drops every listed character and keeps every other character of the line |
| UvTrackFormat.RemoveCharIsKeep | 3dequalizer/python/uvtrack_format.py:112 | one `str.replace(char, '')` keeps exactly the other characters, in order |
| UvTrackFormat.KeepAppend | 3dequalizer/python/uvtrack_format.py:110-112 | dropping characters works piece by piece over a concatenation |
| UvTrackFormat.KeepKeep | 3dequalizer/python/uvtrack_format.py:110-112 | dropping one set of characters and then another is dropping both at once |
| UvTrackFormat.KeepNothing | 3dequalizer/python/uvtrack_format.py:110-112 | dropping no character keeps the line |
| UvTrackFormat.RemoveCharsIsKeep | 3dequalizer/python/uvtrack_format.py:110-112 | removing the whitespace characters one after another is dropping them all in one pass |
| UvTrackFormat.FilteredChars | 3dequalizer/python/uvtrack_format.py:106-113 | a filtered notes line has no whitespace and no upper-case letter, and keeps every other character of the lower-cased line |
| UvTrackFormat.FilterProjectNotesLine | 3dequalizer/python/uvtrack_format.py:106-113 | the loop gives the lower-cased line with the five whitespace characters removed |
| UvTrackFormat.ParseRsDistanceLine | 3dequalizer/python/uvtrack_format.py:91-103 | a line without the key gives None, and a number is only read from a line with the key |
| UvTrackFormat.ParseRsDistanceLineOfKey | 3dequalizer/python/uvtrack_format.py:91-103 | a line that starts with the key gives the number parsed from the text after it |
| UvTrackFormat.LastRsDistanceWithoutMatch | 3dequalizer/python/uvtrack_format.py:116-123 | notes without a matching line give no distance |
| UvTrackFormat.LastRsDistanceOfLastMatch | 3dequalizer/python/uvtrack_format.py:116-123 | the last matching line decides the distance, even when its number is bad |
| UvTrackFormat.ParseRsDistanceFromProjectNotes | 3dequalizer/python/uvtrack_format.py:116-123 | the loop over the notes lines gives the distance of the last matching line, or None |
| UvTrackFormat.LastRsDistanceOfSuffix | 3dequalizer/python/uvtrack_format.py:119-122 | lines before a part of the notes that has a matching line do not affect the distance |
| UvTrackFormat.LastRsDistanceOfLabels | 3dequalizer/python/uvtrack_format.py:119-122 | when every matching line is the same label line, that label decides |
| UvTrackFormat.GetRsDistance | 3dequalizer/python/uvtrack_format.py:158-170 | the camera's own distance where supported, else the notes' distance where notes are supported and give one, else 100.0 |
| UvTrackFormat.Replaced | 3dequalizer/python/uvtrack_format.py:146-152 | one line out per line in, each matching line replaced by the label and the others kept |
| UvTrackFormat.ReplaceLine | 3dequalizer/python/uvtrack_format.py:149-152 | one pass of the loop reports whether the filtered line holds the key, and then gives the label in place of the line |
| UvTrackFormat.ReplacedLines | 3dequalizer/python/uvtrack_format.py:146-153 | replacing keeps every line free of newlines, and each replaced line that matches is the label |
| UvTrackFormat.ReplaceMatchingLines | 3dequalizer/python/uvtrack_format.py:146-152 | the loop replaces exactly the matching lines and reports whether there were any |
| UvTrackFormat.SetRsDistanceIntoNotesAsWritten | 3dequalizer/python/uvtrack_format.py:134-155 | the label goes on top when the notes give no distance, and replaces the matching lines otherwise |
| UvTrackFormat.SetAsWrittenIsLost | 3dequalizer/python/uvtrack_format.py:140-143 | as written, when every matching line has a bad number, the new notes still give no distance |
| UvTrackFormat.SetRsDistanceIntoNotes | 3dequalizer/python/uvtrack_format.py:134-155 | the label replaces the matching lines when there are any, and goes on top otherwise |
| UvTrackFormat.SetThenGet | 3dequalizer/python/uvtrack_format.py:134-170 | after the label of a distance is set into any notes, reading the notes gives that distance |
| UvTrackFormat.SetOnTop | 3dequalizer/python/uvtrack_format.py:140-143 | notes without a matching line, with the label on top, give the label's distance |
| UvTrackFormat.SetReplacing | 3dequalizer/python/uvtrack_format.py:144-153 | notes with matching lines, once those are replaced by the label, give the label's distance |
| UvTrackFormat.IsValidPositionModes | 3dequalizer/python/uvtrack_format.py:352-385 | the always mode and any unknown mode accept every position; inside-frame accepts exactly the unit square and inside-FOV exactly the field-of-view box, edges included |
| UvTrackFormat.FullFovIsFrame | 3dequalizer/python/uvtrack_format.py:372-384 | with the full-frame field of view, the inside-FOV and inside-frame tests agree |
| UvTrackFormat.ApplyRsCorrectionInterpolates | 3dequalizer/python/uvtrack_format.py:185-199 | the blend passes through the three positions: the first at -1, the middle at 0 and the last at 1 |
| UvTrackFormat.ApplyRsCorrectionOfStill | 3dequalizer/python/uvtrack_format.py:185-199 | three equal positions blend to that position at any time |
| UvTrackFormat.Generate | 3dequalizer/python/uvtrack_format.py:462-502 | no format means the preferred version 4; versions 1 to 4 give their generator's text and any other version gives the empty text |
| SolverStandard.GenTwoFrameFwd | python/mmSolver/_api/solverstandard.py:50-78 | one frame gives a single pair of it with itself; otherwise one pair per consecutive two frames, in order |
| SolverStandard.TwoFrameFwdChains | python/mmSolver/_api/solverstandard.py:69-78 | the forward pairs run from the first frame to the last, each starting where the previous one ended |
| SolverStandard.FilterUsed | python/mmSolver/_api/solverstandard.py:100-108 | each side of the split holds only markers of the input that are used, or unused, as asked |
| SolverStandard.FilterMkrListByFrameList | python/mmSolver/_api/solverstandard.py:81-109 | the used list holds, in order, the markers enabled on at least two of the frames, and the unused list the rest |
| SolverStandard.CountEnabled | python/mmSolver/_api/solverstandard.py:102-104 | the loop sums the marker's enable values over the frames |
| SolverStandard.FilterIsPartition | python/mmSolver/_api/solverstandard.py:100-108 | the split is a partition: the two lists together hold each marker as often as the input does, and a marker is in the used list exactly when it is used |
| SolverStandard.AddAllResult | python/mmSolver/_api/solverstandard.py:1202-1225 | adding succeeds exactly when the new frames' numbers are distinct and not yet present, and then appends them; the numbers stay unique either way |
| SolverStandard.FirstIndexOf | python/mmSolver/_api/solverstandard.py:1236-1241 | the index of the first frame with the number, or -1 exactly when there is none |
| SolverStandard.RemoveFirstResult | python/mmSolver/_api/solverstandard.py:1227-1244 | removing a present number drops exactly one frame, an absent number changes nothing, and frames with other numbers stay |
| SolverStandard.RemoveFirstUnique | python/mmSolver/_api/solverstandard.py:1227-1244 | in a list of unique numbers, removing a number leaves the numbers unique and that number gone |
| SolverStandard.DropUnique | python/mmSolver/_api/solverstandard.py:1227-1244 | taking one frame out of a list of unique numbers keeps the numbers unique, and no remaining frame has the taken frame's number |
| SolverStandard.SolverStandard.constructor | python/mmSolver/_api/solverstandard.py:1177-1183 | a new solver has neither a frame list nor a root-frame list |
| SolverStandard.SolverStandard.AddFrame | python/mmSolver/_api/solverstandard.py:1202-1219 | a duplicate number fails and changes nothing; otherwise the frame is appended |
| SolverStandard.SolverStandard.AddFrameList | python/mmSolver/_api/solverstandard.py:1221-1225 | adds each frame in turn, stopping at the first duplicate |
| SolverStandard.SolverStandard.RemoveFrame | python/mmSolver/_api/solverstandard.py:1227-1244 | a missing list becomes empty; otherwise the first frame with the number is removed |
| SolverStandard.SolverStandard.RemoveFrameList | python/mmSolver/_api/solverstandard.py:1246-1250 | removes each frame in turn |
| SolverStandard.SolverStandard.ClearFrameList | python/mmSolver/_api/solverstandard.py:1258-1261 | the frame list becomes empty |
| SolverStandard.SolverStandard.SetFrameList | python/mmSolver/_api/solverstandard.py:1252-1256 | the frame list is the empty list with each frame added in turn |
| SolverStandard.SolverStandard.AddRootFrame | python/mmSolver/_api/solverstandard.py:1290-1307 | a duplicate number fails and changes nothing; otherwise the frame is appended to the root-frame list |
| SolverStandard.SolverStandard.AddRootFrameList | python/mmSolver/_api/solverstandard.py:1309-1313 | adds each root frame in turn, stopping at the first duplicate |
| SolverStandard.SolverStandard.RemoveRootFrame | python/mmSolver/_api/solverstandard.py:1315-1332 | a missing root-frame list becomes empty; otherwise the first frame with the number is removed |
| SolverStandard.SolverStandard.RemoveRootFrameList | python/mmSolver/_api/solverstandard.py:1334-1338 | removes each root frame in turn |
| SolverStandard.SolverStandard.ClearRootFrameList | python/mmSolver/_api/solverstandard.py:1346-1349 | the root-frame list becomes empty |
| SolverStandard.SolverStandard.SetRootFrameListAsWritten | python/mmSolver/_api/solverstandard.py:1340-1344 | as written: the frame list is emptied and the frames are added to the root-frame list that was already there |
| SolverStandard.SolverStandard.SetRootFrameList | python/mmSolver/_api/solverstandard.py:1340-1344 | as intended: the root-frame list is the empty list with each frame added in turn, and the frame list is left alone |
| SolverStandard.SetRootFrameListAsWrittenRejectsSameFrames | python/mmSolver/_api/solverstandard.py:1340-1344 | as written, setting the root frames to the ones already set fails on the first frame and keeps the old list |
| SolverStandard.SetFrameListThenGet | python/mmSolver/_api/solverstandard.py:1252-1256 | setting a list of frames with distinct numbers succeeds and reads back as that list |
| SolverStandard.NonRootFrameNumbers | python/mmSolver/_api/solverstandard.py:566 | the non-root frames are exactly the frame numbers that are not root frame numbers |
| SolverStandard.Distinct | python/mmSolver/_api/solverstandard.py:569 | every value once, and the same values |
| SolverStandard.AllFrameNumbers | python/mmSolver/_api/solverstandard.py:569-570 | every frame number of either list, once, in increasing order |
| SolverStandard.StartEndFrames | python/mmSolver/_api/solverstandard.py:569-573 | start and end are the least and greatest frame number of either list; none when both lists are empty |
| SmoothKeyframes.CalculateChunks | python/mmSolver/tools/smoothkeyframes/lib.py:40-59 | the loop over the zipped times and values builds the chunks that walking the keyframes in order gives |
| SmoothKeyframes.ChunkShape | python/mmSolver/tools/smoothkeyframes/lib.py:46-58 | the time and value chunk lists have the same number of chunks, each time chunk is as long as its value chunk, and no chunk is empty |
| SmoothKeyframes.ChunkContents | python/mmSolver/tools/smoothkeyframes/lib.py:50-58 | the closed chunks followed by the open one are exactly the selected times so far, in order, and the open chunk is the trailing run of selected times |
| SmoothKeyframes.ChunksAreRuns | python/mmSolver/tools/smoothkeyframes/lib.py:50-58 | every returned chunk is a maximal run of consecutive selected times, closed by an unselected time after it |
| SmoothKeyframes.TrailingRunDropped | python/mmSolver/tools/smoothkeyframes/lib.py:54-59 | the result holds the selected times before the trailing run, so a run still open at the last keyframe is dropped |
| SmoothKeyframes.AllSelectedNoChunks | python/mmSolver/tools/smoothkeyframes/lib.py:50-59 | with every keyframe selected no chunk is returned |
| LoadLens.Evens | python/mmSolver/tools/loadlens/lib.py:82 | the tokens at even positions, in order |
| LoadLens.Odds | python/mmSolver/tools/loadlens/lib.py:86 | the tokens at odd positions, in order |
| LoadLens.StripCharLeft | python/mmSolver/tools/loadlens/lib.py:82 | a suffix of the text that does not start with the character, after a prefix made only of that character |
| LoadLens.StripCharRight | python/mmSolver/tools/loadlens/lib.py:82 | a prefix of the text that does not end with the character, before a suffix made only of that character |
| LoadLens.StripChar | python/mmSolver/tools/loadlens/lib.py:82 | the text's characters between a leading and a trailing run of the character, neither starting nor ending with it: only copies of the character at the ends are removed |
| LoadLens.StripCharEnds | python/mmSolver/tools/loadlens/lib.py:82 | stripping the left and then the right end drops a prefix and a suffix made only of the character and keeps what is between |
| LoadLens.ParseAll | python/mmSolver/tools/loadlens/lib.py:82-86 | the tokens parse exactly when each one does, giving one value per token in order; otherwise the error names the first token that does not parse |
| LoadLens.ParseCurve | python/mmSolver/tools/loadlens/lib.py:75-87 | a curve parses exactly when the tokens pair up into frames and values that all parse, giving one key per pair; the length assert fails only on an odd token count |
| LoadLens.ParseKnob | python/mmSolver/tools/loadlens/lib.py:69-106 | a name line gives the node name; a static value passes the digits test and parses; a curve names its parameter by the first field; only a curve or a two-field line can raise |
| LoadLens.ApplyKnob | python/mmSolver/tools/loadlens/lib.py:96-113 | a line in a node's body never changes the node type |
| LoadLens.Finish | python/mmSolver/tools/loadlens/lib.py:115-128 | no lens without a node type or without a node name; otherwise the lens object carries both |
| LoadLens.ParseLinesSnoc | python/mmSolver/tools/loadlens/lib.py:58-113 | the reading state after one more line is that line's step on the state before it |
| LoadLens.ErrorStops | python/mmSolver/tools/loadlens/lib.py:58-113 | the first exception ends the reading and later lines are not looked at |
| LoadLens.ParseFile | python/mmSolver/tools/loadlens/lib.py:48-128 | the loop over the lines gives the lens object of the state the lines lead to, or the exception raised |
| LoadLens.CleanLineHasNoComment | python/mmSolver/tools/loadlens/lib.py:61 | a cleaned line has no comment left in it |
| LoadLens.ApplyKnobKeepsFiled | python/mmSolver/tools/loadlens/lib.py:108-113 | filing a parameter keeps each table to its own name prefix |
| LoadLens.StepKeepsFiled | python/mmSolver/tools/loadlens/lib.py:58-113 | one line of reading keeps each table to its own name prefix |
| LoadLens.ParseLinesFiled | python/mmSolver/tools/loadlens/lib.py:108-113 | however the file reads, the camera table holds only 'tde4_' names and the field-of-view table only 'field_of_view_' names, and the lens table neither |
| LoadLens.NodeTypeIsLastHeader | python/mmSolver/tools/loadlens/lib.py:63-67 | the node type is the one named by the last header line |
| LoadLens.NoHeaderNoLens | python/mmSolver/tools/loadlens/lib.py:58-119 | without a header line every line is ignored and the file gives no lens |
| MayaCallbacks.TouchType | python/mmSolver/tools/solver/maya_callbacks.py:102 | reading a type's node table makes the type present |
| MayaCallbacks.TouchNode | python/mmSolver/tools/solver/maya_callbacks.py:105 | reading a type and node's id set makes the entry present |
| MayaCallbacks.AllIdsMember | python/mmSolver/tools/solver/maya_callbacks.py:82-90 | an id is among all the ids exactly when some type and node has it |
| MayaCallbacks.TouchKeepsIds | python/mmSolver/tools/solver/maya_callbacks.py:76 | reading an entry creates it empty and changes no id set |
| MayaCallbacks.AddedEntries | python/mmSolver/tools/solver/maya_callbacks.py:92-96 | adding unions the ids into that one entry and leaves every other entry alone |
| MayaCallbacks.AddedAllIds | python/mmSolver/tools/solver/maya_callbacks.py:92-96 | after adding, all the ids are the old ones and the new ones |
| MayaCallbacks.RemovedEntries | python/mmSolver/tools/solver/maya_callbacks.py:107-109 | removing empties that one entry, leaves every other entry alone and adds no id |
| MayaCallbacks.AddThenHasNode | python/mmSolver/tools/solver/maya_callbacks.py:92-113 | after adding a non-empty set the entry has a node, and after removing it has none |
| MayaCallbacks.NodeIdsMember | python/mmSolver/tools/solver/maya_callbacks.py:86-87 | the ids collected over a type's nodes are those of one of those nodes |
| MayaCallbacks.TypeIdsMember | python/mmSolver/tools/solver/maya_callbacks.py:85-87 | the walk over the types collects only registered ids, and all of them when it covers every type and node |
| MayaCallbacks.OtherTypesIds | python/mmSolver/tools/solver/maya_callbacks.py:85-87 | an id under a node of one of the walked types is collected |
| MayaCallbacks.TypeIdsIsAllIds | python/mmSolver/tools/solver/maya_callbacks.py:85-87 | walking every type and every node collects exactly the registered ids |
| MayaCallbacks.SetEntryKeepsOrdered | python/mmSolver/tools/solver/maya_callbacks.py:95 | overwriting an existing entry keeps the key order valid |
| MayaCallbacks.TouchTypes | python/mmSolver/tools/solver/maya_callbacks.py:98-102 | a type read for the first time goes to the end of the key order; a known type leaves it alone |
| MayaCallbacks.TouchOrder | python/mmSolver/tools/solver/maya_callbacks.py:101-105 | a node read for the first time goes to the end of its type's node order; every other type's order is unchanged |
| MayaCallbacks.DistinctSnoc | python/mmSolver/tools/solver/maya_callbacks.py:99 | a key order without repeats keeps none when a new key joins its end |
| MayaCallbacks.AddTypeKeepsOrdered | python/mmSolver/tools/solver/maya_callbacks.py:101-102 | a new type joining the end of the key order with no nodes keeps the key order in step with the registry |
| MayaCallbacks.TouchKeepsOrdered | python/mmSolver/tools/solver/maya_callbacks.py:76 | the default-dictionary read keeps the key order in step with the registry |
| MayaCallbacks.CallbackManager.constructor | python/mmSolver/tools/solver/maya_callbacks.py:67-76 | a new manager has no types |
| MayaCallbacks.CallbackManager.Touch | python/mmSolver/tools/solver/maya_callbacks.py:76 | the default-dictionary read adds an empty entry, and a new type or node goes to the end of its key order |
| MayaCallbacks.CallbackManager.GetAllIds | python/mmSolver/tools/solver/maya_callbacks.py:82-90 | the loops over types and nodes give exactly the registered ids |
| MayaCallbacks.CallbackManager.AddNodeIds | python/mmSolver/tools/solver/maya_callbacks.py:92-96 | the given ids join the entry's, for a known callback type |
| MayaCallbacks.CallbackManager.GetTypes | python/mmSolver/tools/solver/maya_callbacks.py:98-99 | the types asked about so far, each once, in order of first use |
| MayaCallbacks.CallbackManager.GetTypeNodes | python/mmSolver/tools/solver/maya_callbacks.py:101-102 | the type's nodes, each once; asking adds the type |
| MayaCallbacks.CallbackManager.GetTypeNodeIds | python/mmSolver/tools/solver/maya_callbacks.py:104-105 | the entry's ids; asking adds the entry |
| MayaCallbacks.CallbackManager.RemoveTypeNodeIds | python/mmSolver/tools/solver/maya_callbacks.py:107-109 | the entry becomes empty |
| MayaCallbacks.CallbackManager.TypeHasNode | python/mmSolver/tools/solver/maya_callbacks.py:111-113 | true exactly when some id is registered for the type and node; asking adds the entry |
| AttrDetails.CreateAttrDetail | python/mmSolver/tools/setattributedetails/lib.py:69-107 | called without arguments, every one of the seventeen settings is None |
| AttrDetails.Pick | python/mmSolver/tools/setattributedetails/lib.py:132-167 | a given setting wins, and a missing one keeps the previous value |
| AttrDetails.FromPreviousHas | python/mmSolver/tools/setattributedetails/lib.py:110-189 | the update has a setting exactly when the previous record or the given settings have it |
| AttrDetails.FromPreviousOfNothing | python/mmSolver/tools/setattributedetails/lib.py:110-189 | giving nothing gives the previous record back |
| AttrDetails.FromPreviousOfEverything | python/mmSolver/tools/setattributedetails/lib.py:110-189 | giving every setting discards the previous record |
| AttrDetails.FromNothing | python/mmSolver/tools/setattributedetails/lib.py:110-189 | starting from the empty record gives exactly what was given |
| AttrDetails.FromPreviousIdempotent | python/mmSolver/tools/setattributedetails/lib.py:110-189 | applying the same update twice is applying it once |
| AttrDetails.FromPreviousComposes | python/mmSolver/tools/setattributedetails/lib.py:110-189 | two updates in a row are one update with the later settings over the earlier ones |
| AttrDetails.FromPreviousKeepsOthers | python/mmSolver/tools/setattributedetails/lib.py:132-167 | each of the seventeen settings not given keeps its previous value |
| AttrDetails.CompleteHas | python/mmSolver/tools/setattributedetails/lib.py:43-63 | a record with a value in each of its seventeen fields has a value for every setting |
| AttrDetails.HasAllComplete | python/mmSolver/tools/setattributedetails/lib.py:43-63 | a record with a value for every setting has a value in each of its seventeen fields |
| Bake.Incoming | lib/rust/mmscenegraph/src/scene/bake.rs:118 | the sources of exactly the edges that end at the node |
| Bake.FirstIndex | lib/rust/mmscenegraph/src/scene/bake.rs:126-133 | the first position of the parent among the earlier nodes, or none exactly when it is not there |
| Bake.GetParentIndexList | lib/rust/mmscenegraph/src/scene/bake.rs:110-137 | one entry per node: none without an incoming edge, otherwise the first earlier position of its parent, or none when the parent is not earlier |
| Bake.ParentIndexMeaning | lib/rust/mmscenegraph/src/scene/bake.rs:117-134 | an entry names the first earlier position holding a parent of the node, and is none exactly when no earlier node is its parent |
| Bake.Filter | lib/rust/mmscenegraph/src/scene/bake.rs:88-92 | keeps exactly the sorted nodes that are needed, as a subsequence of the sorted order, so their order is kept |
| Bake.Weights | lib/rust/mmscenegraph/src/scene/bake.rs:95-98 | one node id per kept node, read from the graph's node weights |
| Bake.FlattenFilterAndSort | lib/rust/mmscenegraph/src/scene/bake.rs:71-107 | none exactly when the sort finds a cycle; otherwise the needed nodes of the sorted order and their node ids, in step |
| Bake.FilterKeepsTopological | lib/rust/mmscenegraph/src/scene/bake.rs:88-92 | filtering a topological order keeps parents before their children |
| Bake.ParentsComeFirst | lib/rust/mmscenegraph/src/scene/bake.rs:110-137 | in a topological order, a node whose parent is listed gets that parent's position |

## Left out

- LDPK's lens polynomials (`eval`, `eval_inv`, `map_inverse`), the unit-to-DN and DN-to-unit conversions, and other lens numerics are function-valued parameters, because they are foreign library code; the contracts hold for any such functions, and the round-trip lemmas assume the supplied maps are exact inverses.
- Floating point: doubles and floats are `real`, and the cast to a 32-bit float is the identity, so rounding and precision are not modelled.
- The identity grid of width or height 1 divides 0 by 0 in the source; the model takes that value as the parameter `undefined`.
- The `_with_stride` chunked and sub-window variants of the buffer helpers are not part of this model; the whole-buffer loops are modelled.
- The thread-pool multithreaded variants of the distortion loops: concurrency.
- `DistortionOperations.ApplyToBuffer`: each buffer is one array with one element type, so the documented in-place use with two 64-bit values in and four 32-bit values out of the same memory, where each 16-byte pixel overwrites only its own 16-byte point, is not modelled. Shared memory is an array of reals measured in values, and its closed form covers only an output stride no wider than the input stride.
- `DistortionStructs.Initialized`: the error messages printed to `std::cerr` for a zero squeeze are left out, as output; the state is updated as in the source.
- `MathUtils.Normalize2`, `MathUtils.Normalize3`: take the magnitude as a parameter instead of computing a square root, and do not state that the result has unit length.
- `MathUtils.CosineAngleBetweenLines`: states that the cosine is non-negative and when it is zero, not that it is at most 1, since that needs the unit length of the normalised directions.
- Image cache:
  - `BYTES_TO_MEGABYTES` is not among the shown sources, so it is a constructor parameter of the image cache.
  - GPU texture allocation, `update_texture` and deallocation are Maya and OpenGL calls. A texture arrives already allocated, and its validity test is a parameter.
  - The shape cache's methods (shape/ImageCache.cpp) are the same code as the image cache's. One class models both, and the shape cache is built with `ShapeImageCache.NewImageCache`.
  - Getter functions return fields unchanged and carry no contracts of their own.
- `MImage`, OCIO, EXR and image file I/O of `mmConvertImage`: the status of reading, converting and writing a frame is the parameter `io`.
- Solver relationships:
  - `ERRORS_PER_MARKER` and the approximate-equality test are not among the shown sources, so they are parameters.
  - What Maya reports about markers, attributes and plugs is given as functions of the indices.
  - Whether an attribute is part of a camera is a field of the attribute.
  - `findMarkerToAttributeRelationship` (the Maya graph walk that fills the affects plugs) is out: it queries Maya.
- Configuration:
  - File reading and writing, `get_dirs`, `find_path`, `get_config` and `get_home_dir_path` are file-system and environment work. A read is given the parsed contents.
  - Membership in a non-dictionary value is treated as absent, and the length of a scalar as non-zero.
  - The aliasing that the shallow copy in `set_value` creates between the old and new nested dictionaries is not modelled, because values are immutable here.
  - Whether destroying a config writes it is a function of the config; the write itself is file I/O and is left out.
- Track importer:
  - `KeyframeData.simplify_data`, the `KeyframeData(data)` argument and `get_raw_data` are out.
  - The RZ2, 3DE text and UV-track v1 to v4 loaders and `float_is_equal` are out: they are Maya- and JSON-bound.
  - Python's `float()` is the parameter `parseFloat`. `int()` is modelled as an optional sign followed by digits.
  - Frames are integers instead of their decimal text, and dictionary order is replaced by the key list.
- `ImportTracks.KeyframeData.GetValue`: with no keys the source raises TypeError when it computes the distance to the missing closest frame; the model returns None for that exception.
- `ImportTracks.ParsePFTrack`: states the error cases and that every parsed track has a point, not each point's value; `ImportTracks.ParseFrameLine` states those.
- `StringUtils.Strip`: Python's `str.strip()` also removes the ASCII separators \x1c to \x1f and Unicode whitespace; the model strips only space, tab, newline, carriage return, vertical tab and form feed.
- UV-track exporter:
  - 3DEqualizer calls, such as reading and writing the project notes and the camera's own distance, are parameters or are left out.
  - The label's number formatting (`str(float)`) is not modelled. The label line is a parameter, and `UvTrackFormat.SetThenGet` assumes its filtered form parses to the distance set.
  - Lower-casing covers ASCII letters only.
  - The v1 to v4 generators' texts are parameters of `UvTrackFormat.Generate`.
  - `_get_point_valid_mode`, `_get_point_weight`, `_remove_rs_from_2d_point` and the camera and point data queries call 3DEqualizer and are out.
- Standard solver:
  - The `Frame` class is not part of this model; a frame is its number and data.
  - The solver's other `_data` keys, and compiling and running the solve, are out.
  - The source's `set` iteration order is replaced by sorting where the source sorts.
- Smooth keyframes: the Maya animation-curve reads and writes around `calculate_chunks` are out.
- Lens-file reader:
  - The file is given as its lines.
  - Python's `int()` accepts more forms than the model's sign-and-digits.
  - `float()` is a parameter.
  - `isdigit` covers ASCII digits only.
  - The logging calls are out.
- Callback registry:
  - `__del__` and `remove_callbacks` call Maya and are out.
  - `get_all_ids` returns a set instead of a list in arbitrary order.
  - The registry's nested sets are values, so aliasing of the set object returned by `get_type_node_ids` is not modelled.
  - The logging calls are out.
- Attribute details: the seventeen settings have fixed option types instead of Python's dynamic types, so the `isinstance` assertion holds by typing. `create_attr_detail` with arguments is the datatype's constructor.
- Scene-graph bake:
  - The graph library's topological sort and the upstream walk that collects the needed nodes are parameters.
  - The order of `edges_directed` does not matter under the at-most-one-parent assertion.
  - Rust's `unwrap` of a node weight and `assert!` become requires clauses.
  - The rest of the bake (building the flat transform arrays) is out.

## Findings

| source | as written | input that shows it | evidently intended | confidence | as-written member | corrected member |
|---|---|---|---|---|---|---|
| lib/cppbind/mmlens/include/mmlens/lens_model_3de_anamorphic_deg_6_rotate_squeeze_xy_rescaled.h:48-66 | the 22-argument constructor of the rescaled degree-6 model tags it `k3deAnamorphicStdDeg6` | the default values passed to the 22-argument constructor give a model tagged as the non-rescaled family | tag `k3deAnamorphicStdDeg6Rescaled`, as the default constructor does | not executed | LensModel.FromValuesAsWritten, LensModel.FromValuesAsWrittenMislabels | LensModel.FromValues, LensModel.FromDefaultValues |
| src/mmSolver/image/ImageCache.h:266-276 | the capacity setter evicts only while `used > capacity` and the key list is empty, so it never evicts | a cache holding key "a" with 10 bytes, capacity set to 5 | evict from the front while over capacity and the list is not empty | not executed | LruCache.SetCapacityAsWritten, LruCache.SetCapacityAsWrittenOverflows | LruCache.SetCapacity, LruCache.SetCapacityFits |
| src/mmSolver/image/ImageCache.cpp:216 | the brief prints the used megabytes after "capacity=" | an empty cache with a 1000 MB capacity shows a capacity of 0 MB | print the capacity megabytes there | not executed | LruCache.BriefAsWritten, LruCache.BriefAsWrittenMisreports | LruCache.CacheBrief |
| python/mmSolver/_api/solverstandard.py:1340-1344 | `set_root_frame_list` calls `clear_frame_list`, so it empties the frame list and adds to the old root frames | setting the root frames to the frames already set | clear the root-frame list, then add the frames | not executed | SolverStandard.SolverStandard.SetRootFrameListAsWritten, SolverStandard.SetRootFrameListAsWrittenRejectsSameFrames | SolverStandard.SolverStandard.SetRootFrameList, SolverStandard.SetFrameListThenGet |
| src/mmSolver/shape/ImageCache.h:162-166 | byte count multiplied in 32-bit unsigned arithmetic | a 16384 x 16384 image of 4 F32 channels gives 0 bytes | the full product | not executed | ShapeImageCache.ByteCountAsWritten, ShapeImageCache.ByteCountAsWrittenWraps | ShapeImageCache.ByteCount |
| share/3dequalizer/scriptdb/import_tracks_mmsolver.py:1210-1229 | the weight of an occluded frame is zeroed only when the integer flag `is False`, which never holds | a marker seen on frames 1 and 3 reads weight 1 on frame 2 | weight 0 on every frame without data | not executed | ImportTracks.FillOccludedFramesAsWritten, ImportTracks.OccludedFrameKeepsWeight | ImportTracks.FillOccludedFrames, ImportTracks.WeightZeroOnOccluded |
| 3dequalizer/python/uvtrack_format.py:134-155 | the label replaces matching lines only when the notes already give a parsed distance, and otherwise goes on top | notes holding the line "RS Content Distance = abc" still give no distance after the set | replace every matching line whenever there is one | not executed | UvTrackFormat.SetRsDistanceIntoNotesAsWritten, UvTrackFormat.SetAsWrittenIsLost | UvTrackFormat.SetRsDistanceIntoNotes, UvTrackFormat.SetThenGet |
