# BioViewer core in Dafny

This project models the non-graphical core of BioViewer, a viewer for molecular structure files on Apple platforms, and proves properties of that model. The core has three parts.

- **The structure-file readers.**
  - Four PDB readers: the current app reader (`parsePDBLike`), the legacy class-based reader, the block-parallel package reader and the original reader in `ImportFiles.swift`.
  - The mmCIF reader.
  - Two XYZ readers: the app's and the package's.
  - The readers slice the fixed columns of the wwPDB Atomic Coordinate Entry Format v3.3: section 2, the title section (HEADER, TITLE, AUTHOR), and section 9, the coordinate section (ATOM, HETATM, TER, ENDMDL). They group atoms into subunits, models and configurations. Two readers do not keep their per-atom lists aligned. The app's XYZ reader lays the atoms out grouped by element while its element list keeps line order. The mmCIF reader gives a chain id and a residue to rows whose coordinates it cannot read and so drops from the atoms. Both are under "## Findings".
- **The value types they build.** Elements, chain ids, subunits, element compositions and structures.
- **The stateful helpers around the renderer and the interface.**
  - Colour and radius tables and their crossfades; the scene animator; the per-frame scene bookkeeping; bounding boxes and centring; bond generation; the molecular-surface debug points.
  - The status models; the frame-rate ring buffer; the batched source-line view; the composition chart; the pipeline caches; the photo-mode pickers; the byte-size label; the unit markup; the dynamic-UTI decoder.

How the source is mapped:

- **Imperative code stays imperative.** Code that changes state step by step is a class with `modifies` frames, or a method with loop invariants. Each such method is proved against a value-level function, usually a left fold over the lines or items it reads, and the properties the source relies on are lemmas about that function.
- **Pure code stays pure.** Pure Swift becomes functions and lemmas.
- **Numbers.** Swift `Float` and `Double` values are reals.
- **Calls the model cannot see become parameters.** These are:
  - text-to-number parsing (`parseReal`, `parseInt`) and the element-name-to-identifier lookup (`atomId`, `getAtomId(atomName:)` applied to the element field);
  - UTF-8 decoding;
  - the Metal library and device calls;
  - the clock, random colours and the square root;
  - the colour conversion.

## Model

| member | source | states |
|---|---|---|
| AtomElements.RawValue | BioViewerPackages/BioViewerFoundation/Sources/BioViewerFoundation/Types/AtomElement.swift:11-27 | the raw value is below 256 and is 0 exactly for `unknown` |
| AtomElements.RawValueInjective | BioViewerPackages/BioViewerFoundation/Sources/BioViewerFoundation/Types/AtomElement.swift:11-27 | different cases have different raw values |
| AtomElements.ImportantMembership | BioViewerPackages/BioViewerFoundation/Sources/BioViewerFoundation/Types/AtomElement.swift:29-31 | `importantElements` holds exactly carbon, hydrogen, nitrogen, oxygen and sulfur |
| AtomElements.OtherElements | BioViewerPackages/BioViewerFoundation/Sources/BioViewerFoundation/Types/AtomElement.swift:32-36 | `otherElements` holds exactly the cases that are neither important nor `unknown`, in the order `allCases` lists them |
| AtomElements.AllCasesInOrder | BioViewerPackages/BioViewerFoundation/Sources/BioViewerFoundation/Types/AtomElement.swift:11-27 | `allCases` lists the cases in declaration order, each once |
| AtomElements.FilterKeepsOrder | BioViewerPackages/BioViewerFoundation/Sources/BioViewerFoundation/Types/AtomElement.swift:32-36 | `filter` keeps the order of the list it filters |
| AtomElements.ElementPartition | BioViewerPackages/BioViewerFoundation/Sources/BioViewerFoundation/Types/AtomElement.swift:29-36 | every case is in `allCases`; a known case is in exactly one of the two lists, `unknown` in neither |
| AtomElements.FromRawValue | BioViewerPackages/BioViewerFoundation/Sources/BioViewerFoundation/Types/AtomElement.swift:11-27 | the raw-value lookup gives a case exactly when that case has this raw value |
| AtomElements.FromIndex | BioViewerPackages/BioViewerFoundation/Sources/BioViewerFoundation/Types/AtomElement.swift:112-118 | an index that is some case's raw value gives that case, any other gives `unknown` |
| AtomElements.FromIndexRoundTrip | BioViewerPackages/BioViewerFoundation/Sources/BioViewerFoundation/Types/AtomElement.swift:112-118 | `init(index: e.rawValue) == e` for every case |
| AtomElements.FromStringAsWritten | BioViewerPackages/BioViewerFoundation/Sources/BioViewerFoundation/Types/AtomElement.swift:120-139 | as written, a known element other than chlorine comes back only for a string whose upper-casing is that element's upper-cased symbol |
| AtomElements.FromUppercased | BioViewerPackages/BioViewerFoundation/Sources/BioViewerFoundation/Types/AtomElement.swift:122-138 | with the chlorine case spelt "CL", the case table gives a known element only for that element's upper-cased symbol |
| AtomElements.FromString | BioViewerPackages/BioViewerFoundation/Sources/BioViewerFoundation/Types/AtomElement.swift:120-139 | with the chlorine case corrected, a known element comes back only for a string whose upper-casing is that element's upper-cased symbol |
| AtomElements.UpperSymbolOfName | BioViewerPackages/BioViewerFoundation/Sources/BioViewerFoundation/Types/AtomElement.swift:38-139 | the symbol the case table matches is the element's `name` upper-cased |
| AtomElements.AsWrittenNeverChlorine | BioViewerPackages/BioViewerFoundation/Sources/BioViewerFoundation/Types/AtomElement.swift:120-139 | as written, no string is read as chlorine, because an upper-cased string never equals "Cl" |
| AtomElements.ChlorineUnreachable | BioViewerPackages/BioViewerFoundation/Sources/BioViewerFoundation/Types/AtomElement.swift:120-139 | as written, both "Cl" and "CL" are read as `unknown` |
| AtomElements.FromStringReadsName | BioViewerPackages/BioViewerFoundation/Sources/BioViewerFoundation/Types/AtomElement.swift:38-139 | with the chlorine case corrected, reading an element's symbol in either case gives back that element |
| AtomElements.AsWrittenAgreesExceptChlorine | BioViewerPackages/BioViewerFoundation/Sources/BioViewerFoundation/Types/AtomElement.swift:120-139 | the written and the corrected reading agree on every string whose upper-casing is not "CL" |
| AtomElements.VanDerWaalsRadius | BioViewerPackages/BioViewerFoundation/Sources/BioViewerFoundation/Types/AtomElement.swift:91-110 | every radius is positive and lies between 1.0 and 2.8; `unknown` has 1.0 |
| AtomElements.DefaultColor | BioViewerPackages/BioViewerFoundation/Sources/BioViewerFoundation/Types/AtomElement.swift:80-89 | every colour lies in the unit cube; the important elements have their own colour and every other case the same grey |
| AtomElements.ImportantColorsDistinct | BioViewerPackages/BioViewerFoundation/Sources/BioViewerFoundation/Types/AtomElement.swift:80-86 | the five important elements have pairwise different colours |
| ChainIds.MappingKeysAreCapitals | BioViewerPackages/BioViewerFoundation/Sources/BioViewerFoundation/Types/ChainID.swift:15-45 | the keys of `defaultMapping` are exactly the one-letter strings "A" to "Z" |
| ChainIds.MappingSendsLetterToIndex | BioViewerPackages/BioViewerFoundation/Sources/BioViewerFoundation/Types/ChainID.swift:15-45 | the i-th capital letter maps to i |
| ChainIds.MappingInjective | BioViewerPackages/BioViewerFoundation/Sources/BioViewerFoundation/Types/ChainID.swift:15-45 | two keys with the same value are the same key |
| ChainIds.FromRawValue | BioViewerPackages/BioViewerFoundation/Sources/BioViewerFoundation/Types/ChainID.swift:49-51 | `init?(rawValue:)` always succeeds and keeps the raw value |
| ChainIds.FromString | BioViewerPackages/BioViewerFoundation/Sources/BioViewerFoundation/Types/ChainID.swift:52-58 | `init?(string:)` succeeds exactly on a single capital letter, with the letter's alphabet position as raw value |
| ChainIds.ZeroIsChainA | BioViewerPackages/BioViewerFoundation/Sources/BioViewerFoundation/Types/ChainID.swift:14-58 | `.zero` is the chain read from "A" |
| ChainIds.DisplayName | BioViewerPackages/BioViewerFoundation/Sources/BioViewerFoundation/Types/ChainID.swift:66-101 | "Chain " followed by the letter for raw values below 26, otherwise by the decimal raw value |
| ChainIds.DisplayNameOfLetter | BioViewerPackages/BioViewerFoundation/Sources/BioViewerFoundation/Types/ChainID.swift:52-101 | a chain read from a letter is displayed as "Chain " and that letter |
| ChainIds.DisplayNameNumber | BioViewerPackages/BioViewerFoundation/Sources/BioViewerFoundation/Types/ChainID.swift:96-100 | beyond 26 the displayed number reads back as the raw value |
| ProteinSubunits.Make | BioViewerPackages/BioViewerFoundation/Sources/BioViewerFoundation/Models/ProteinSubunit.swift:32-37 | the initialiser stores all four arguments unchanged |
| ProteinSubunits.SubunitName | BioViewerPackages/BioViewerFoundation/Sources/BioViewerFoundation/Models/ProteinSubunit.swift:41-78 | a non-chain subunit is named "Non-chain atoms"; other subunits are named "Subunit " with the index's letter below 26 and the decimal index from 26 on |
| ProteinSubunits.SubunitNamesDistinct | BioViewerPackages/BioViewerFoundation/Sources/BioViewerFoundation/Models/ProteinSubunit.swift:41-78 | chain subunits with different indices get different names |
| ElementCompositions.CountElements | BioViewerPackages/BioViewerFoundation/Sources/BioViewerFoundation/Models/ProteinComposition/ProteinElementComposition.swift:36-47 | the counting initialiser's two loops produce the composition `Counted(elements)` |
| ElementCompositions.SumCounts | BioViewerPackages/BioViewerFoundation/Sources/BioViewerFoundation/Models/ProteinComposition/ProteinElementComposition.swift:44-46 | the second loop adds up the dictionary's counts |
| ElementCompositions.CountedMeaning | BioViewerPackages/BioViewerFoundation/Sources/BioViewerFoundation/Models/ProteinComposition/ProteinElementComposition.swift:36-47 | after counting, the keys are exactly the elements present, each count is the element's multiplicity and the total is the list length |
| ElementCompositions.SumOverAllCases | BioViewerPackages/BioViewerFoundation/Sources/BioViewerFoundation/Models/ProteinComposition/ProteinElementComposition.swift:44-46 | the counts of all cases add up to the number of elements counted |
| ElementCompositions.Merge | BioViewerPackages/BioViewerFoundation/Sources/BioViewerFoundation/Models/ProteinComposition/ProteinElementComposition.swift:25-30 | `+=` keeps the union of the keys, adds the counts per key with missing keys as 0, and adds the totals |
| ElementCompositions.MergeCounted | BioViewerPackages/BioViewerFoundation/Sources/BioViewerFoundation/Models/ProteinComposition/ProteinElementComposition.swift:25-47 | `+=` of two counted lists is the count of their concatenation |
| ElementCompositions.MergeEmpty | BioViewerPackages/BioViewerFoundation/Sources/BioViewerFoundation/Models/ProteinComposition/ProteinElementComposition.swift:13-34 | `init()` is the identity of `+=` on both sides |
| ElementCompositions.MergeCommutes | BioViewerPackages/BioViewerFoundation/Sources/BioViewerFoundation/Models/ProteinComposition/ProteinElementComposition.swift:25-30 | `+=` is commutative |
| ElementCompositions.ImportantElementCount | BioViewerPackages/BioViewerFoundation/Sources/BioViewerFoundation/Models/ProteinComposition/ProteinElementComposition.swift:17-23 | the loop adds the counts of C, H, N, O and S |
| ElementCompositions.ImportantCountOfCounted | BioViewerPackages/BioViewerFoundation/Sources/BioViewerFoundation/Models/ProteinComposition/ProteinElementComposition.swift:17-47 | for a counted list the important count is the number of important atoms and is at most the total |
| ElementCompositions.MultisetOfDistinct | BioViewer/Models/Protein/ProteinComposition/ProteinElementComposition.swift:17-23 | a list without repeats holds each member once (the app copy has the same code) |
| Proteins.Make | BioViewerPackages/BioViewerFoundation/Sources/BioViewerFoundation/Models/Protein.swift:79-105 | every argument is stored unchanged, the residue composition included, and `atomCount` is the composition's total |
| Proteins.MakeCountsElements | BioViewerPackages/BioViewerFoundation/Sources/BioViewerFoundation/Models/Protein.swift:102 | with a counted composition the atom count is the number of atom elements |
| Proteins.SameIsIdentity | BioViewerPackages/BioViewerFoundation/Sources/BioViewerFoundation/Models/Protein.swift:110-114 | `==` is an equivalence that compares identities only and ignores every other field |
| Proteins.CombinedAtomCountAppend | BioViewerPackages/BioViewerFoundation/Sources/BioViewerFoundation/Models/Protein.swift:116-120 | the combined atom count adds over concatenation |
| Proteins.CombinedAtomCountOfCounted | BioViewerPackages/BioViewerFoundation/Sources/BioViewerFoundation/Models/Protein.swift:102-120 | for proteins with counted compositions the combined count is the total number of atom elements |
| AtomRadiiTables.VanDerWaalsSlot | BioViewer/Metal/AtomRadii+Extensions.swift:36-51 | a slot that is some element's raw value holds that element's van der Waals radius, any other slot 1.0 |
| AtomRadiiTables.Zero | BioViewer/Metal/AtomRadii+Extensions.swift:17-33 | every one of the `ATOM_TYPE_COUNT` slots is 0 |
| AtomRadiiTables.VanDerWaals | BioViewer/Metal/AtomRadii+Extensions.swift:36-51 | slot i holds `AtomElement(index: i).vanDerWaalsRadius` |
| AtomRadiiTables.DefaultFixed | BioViewer/Metal/AtomRadii+Extensions.swift:14-68 | every slot holds the default fixed radius 0.4 |
| AtomRadiiTables.ScaledVanDerWaals | BioViewer/Metal/AtomRadii+Extensions.swift:72-92 | slot i holds the van der Waals radius of i times the scale, through the cached table when the scale is 1 |
| AtomRadiiTables.ScaleSlots | BioViewer/Metal/AtomRadii+Extensions.swift:78-91 | the computed branch writes every slot with its van der Waals radius times the scale |
| AtomRadiiTables.Fixed | BioViewer/Metal/AtomRadii+Extensions.swift:94-113 | every slot holds the radius, through the cached table when it is 0.4 |
| AtomRadiiTables.Interpolated | BioViewer/Metal/AtomRadii+Extensions.swift:115-145 | slot i holds `(final - initial) * progress + initial`; progress 0 gives `initial`, progress 1 gives `final`, equal inputs give that input |
| AtomRadiiGenerator.WithSixSlots | BioViewer/Metal/AtomRadiiGenerator.swift:17-25 | a fresh table with the first six slots set from the list and every later slot 0 |
| AtomRadiiGenerator.VanDerWaalsRadii | BioViewer/Metal/AtomRadiiGenerator.swift:28-39 | slots 0 to 5 are 1.70, 1.10, 1.55, 1.52, 1.80 and 1.50, the rest 0 |
| AtomRadiiGenerator.FixedRadii | BioViewer/Metal/AtomRadiiGenerator.swift:41-52 | slots 0 to 5 hold the radius, the rest 0 |
| AtomRadiiGenerator.CreateAtomRadii | BioViewer/Metal/AtomRadiiGenerator.swift:12-26 | fewer than six radii give `vanDerWaalsRadii()`; otherwise slots 0 to 5 hold the first six radii in order |
| AtomRadiiGenerator.CreateFromOwnSlots | BioViewer/Metal/AtomRadiiGenerator.swift:12-26 | a table built by the generator is rebuilt from its own six slots |
| AtomRadiiGenerator.ExtraRadiiIgnored | BioViewer/Metal/AtomRadiiGenerator.swift:17-23 | radii beyond the sixth change nothing |
| AtomRadiiGenerator.FixedIsCreated | BioViewer/Metal/AtomRadiiGenerator.swift:12-52 | `fixedRadii(radius:)` equals `createAtomRadii` of six copies of the radius |
| ShaderTypes.BlankRadii | BioViewer/Metal/AtomRadiiGenerator.swift:17 | `AtomRadii()` has every slot 0 |
| ShaderTypes.BlankFill | BioViewer/Metal/Compute/FillColorInputUtility.swift:16 | `FillColorInput()` has zero weights and clear colour tables of full capacity |
| FillColorInputUtility.Accumulate | BioViewer/Metal/Compute/FillColorInputUtility.swift:32-39 | one accumulation loop adds the weighted source colour to every slot |
| FillColorInputUtility.BlendTable | BioViewer/Metal/Compute/FillColorInputUtility.swift:24-101 | every slot of a table becomes `start[i] * (1 - f) + end[i] * f` |
| FillColorInputUtility.WriteBack | BioViewer/Metal/Compute/FillColorInputUtility.swift:103-139 | the first `min(count, capacity)` slots are copied into the fill and the other slots are kept |
| FillColorInputUtility.InterpolateFillColorInput | BioViewer/Metal/Compute/FillColorInputUtility.swift:14-139 | the three weights and every element, residue and subunit slot over the full capacity are crossfaded |
| FillColorInputUtility.CrossfadeEnds | BioViewer/Metal/Compute/FillColorInputUtility.swift:20-101 | over the reals, fraction 0 gives the start fill and fraction 1 the end fill |
| FillColorInputUtility.CrossfadeKeepsConvexWeights | BioViewer/Metal/Compute/FillColorInputUtility.swift:20-22 | weights in [0, 1] that sum to 1 on both inputs stay so for any fraction in [0, 1] |
| ProteinColorModel.ShortcutKey | BioViewer/Views/ProteinViews/Data/ProteinColorModel.swift:28-37 | every option's shortcut key is one of "1", "2", "3" |
| ProteinColorModel.ShortcutKeysDistinct | BioViewer/Views/ProteinViews/Data/ProteinColorModel.swift:28-37 | two options share a shortcut key exactly when they are the same option |
| ProteinColorModel.FixedColorPalette | BioViewer/Views/ProteinViews/Data/ProteinColorModel.swift:68-78 | the fixed subunit palette has eight colours |
| ProteinColorModel.ElementSlotColor | BioViewer/Views/ProteinViews/Data/ProteinColorModel.swift:48-54 | slot i gets the default colour of the element whose raw value is i, and `unknown`'s colour when there is none |
| ProteinColorModel.FillTable | BioViewer/Views/ProteinViews/Data/ProteinColorModel.swift:113-160 | slots are converted in order until the count, the capacity or the first colour that does not convert; later slots keep their defaults |
| ProteinColorModel.ColorModel.InitElementColors | BioViewer/Views/ProteinViews/Data/ProteinColorModel.swift:45-55 | exactly `ATOM_TYPE_COUNT` colours, slot i with `ElementSlotColor(i)` |
| ProteinColorModel.ColorModel.InitResidueColors | BioViewer/Views/ProteinViews/Data/ProteinColorModel.swift:57-63 | one colour per residue case, in case order |
| ProteinColorModel.ColorModel.InitSubunitColors | BioViewer/Views/ProteinViews/Data/ProteinColorModel.swift:65-88 | the eight palette colours first, then drawn colours up to exactly `MAX_SUBUNIT_COLORS` entries |
| ProteinColorModel.ColorModel.UpdatedFillColor | BioViewer/Views/ProteinViews/Data/ProteinColorModel.swift:92-160 | exactly the selected mode's weight is 1 and the other two are 0; each table is a conversion prefix of its colours |
| ProteinColorModel.ColorModel.constructor | BioViewer/Views/ProteinViews/Data/ProteinColorViewModel.swift:29-58 | the given colouring mode and empty element, residue and subunit colour lists |
| ProteinColorModel.ConvertedCountUnique | BioViewer/Views/ProteinViews/Data/ProteinColorModel.swift:113-160 | the number of converted slots is determined by the table and the colours |
| ProteinColorModel.AllConvertedCopiesPrefix | BioViewer/Views/ProteinViews/Data/ProteinColorModel.swift:113-160 | when every colour converts, `min(count, capacity)` slots are copied in order |
| SceneAnimators.Clamp | BioViewer/Metal/Renderer/Scene/SceneAnimator.swift:111 | `max(0, min(1, x))` lies in [0, 1] and is x inside it |
| SceneAnimators.Progress | BioViewer/Metal/Renderer/Scene/SceneAnimator.swift:109-116 | the progress lies in [0, 1] |
| SceneAnimators.GetAnimationProgress | BioViewer/Metal/Renderer/Scene/SceneAnimator.swift:109-116 | the first call records the current time and returns 0; later calls return the clamped elapsed fraction and keep the start time |
| SceneAnimators.ProgressCompletes | BioViewer/Metal/Renderer/Scene/SceneAnimator.swift:109-116 | once started, progress reaches 1 exactly when a whole duration has elapsed |
| SceneAnimators.Ticked | BioViewer/Metal/Renderer/Scene/SceneAnimator.swift:109-116 | a tick sets the current time to now, keeps the duration and records now as the start on the first tick |
| SceneAnimators.SceneAnimator.AnimateRadiiChange | BioViewer/Metal/Renderer/Scene/SceneAnimator.swift:53-71 | a new radii animation from the renderer's current radii replaces any running one, with no start time, and the display link runs |
| SceneAnimators.SceneAnimator.AnimatedFillColorChange | BioViewer/Metal/Renderer/Scene/SceneAnimator.swift:73-89 | a new colour animation replaces any running one, with no start time, and the display link runs |
| SceneAnimators.SceneAnimator.PauseDisplayLinkIfNeeded | BioViewer/Metal/Renderer/Scene/SceneAnimator.swift:103-107 | the display link is paused only when both animations are nil |
| SceneAnimators.SceneAnimator.UpdateRadiiAnimation | BioViewer/Metal/Renderer/Scene/SceneAnimator.swift:135-165 | the renderer gets the crossfade of the radii at the progress; the animation is cleared once progress reaches 1 |
| SceneAnimators.SceneAnimator.UpdateColorAnimation | BioViewer/Metal/Renderer/Scene/SceneAnimator.swift:167-190 | the renderer gets the colour crossfade; a finishing animation first sets exactly the final fill, then clears itself |
| SceneAnimators.SceneAnimator.UpdateAllAnimations | BioViewer/Metal/Renderer/Scene/SceneAnimator.swift:120-131 | nothing changes while busy; otherwise each running animation advances one step exactly as the radii and colour steps describe, the display link pauses once the last animation finishes, and `isBusy` is false afterwards |
| MetalScenes.BiasOf | BioViewer/Metal/Renderer/Scene/MetalScene.swift:265 | `2 / span` is infinite exactly when the span is 0, and otherwise multiplies back to 2 |
| MetalScenes.Flag | BioViewer/Metal/Renderer/Scene/MetalScene.swift:161-193 | `flag ? 1 : 0` is 1 exactly when the flag is set, else 0 |
| MetalScenes.NearPlane | BioViewer/Metal/Renderer/Scene/MetalScene.swift:260-263 | the near plane is `max(1, d - r)` |
| MetalScenes.PlanesFitSphere | BioViewer/Metal/Renderer/Scene/MetalScene.swift:255-267 | a sphere wholly beyond distance 1 gives planes 2r apart and depth bias 1/r |
| MetalScenes.PlanesClamped | BioViewer/Metal/Renderer/Scene/MetalScene.swift:260-263 | a sphere reaching nearer than 1 gives near plane 1 and span `d + r - 1` |
| MetalScenes.Reprojection | BioViewer/Metal/Renderer/Scene/MetalScene.swift:282-283 | no reprojection data, rather than an identity transform, exactly when there is no previous frame data |
| MetalScenes.MetalScene.constructor | BioViewer/Metal/Renderer/Scene/MetalScene.swift:106-166 | camera at (0, 0, 1000) with planes 1 and 10000, strengths 0.4 and 0.3, frame 0; the first current frame data is copied before the shading flags are written |
| MetalScenes.MetalScene.UpdateScene | BioViewer/Metal/Renderer/Scene/MetalScene.swift:170-320 | with nothing to redraw and nothing playing, only `frame` grows by 1; otherwise the previous frame data is kept, the shading flags and strengths are copied, `frame` grows by 1 and `needsRedraw` ends equal to `autorotating` |
| MetalScenes.MetalScene.SkipFrame | BioViewer/Metal/Renderer/Scene/MetalScene.swift:318-320 | `frame` grows by 1 |
| MetalScenes.MetalScene.UpdateCameraDistanceToModel | BioViewer/Metal/Renderer/Scene/MetalScene.swift:255-267 | near `max(1, d - r)`, far `d + r`, camera z `d`, depth bias `2 / (far - near)` |
| MetalScenes.MetalScene.TranslateCamera | BioViewer/Metal/Renderer/Scene/MetalScene.swift:302-305 | adds (x, y) to the camera and keeps z |
| MetalScenes.MetalScene.ResetCamera | BioViewer/Metal/Renderer/Scene/MetalScene.swift:307-310 | zeroes the camera's x and y and keeps z |
| MetalScenes.MetalScene.SetHasShadows | BioViewer/Metal/Renderer/Scene/MetalScene.swift:73 | the observer asks for a redraw |
| MetalScenes.MetalScene.SetShadowStrength | BioViewer/Metal/Renderer/Scene/MetalScene.swift:74 | the observer asks for a redraw |
| MetalScenes.MetalScene.SetHasDepthCueing | BioViewer/Metal/Renderer/Scene/MetalScene.swift:76 | the observer asks for a redraw |
| MetalScenes.MetalScene.SetDepthCueingStrength | BioViewer/Metal/Renderer/Scene/MetalScene.swift:77 | the observer asks for a redraw |
| MetalScenes.MetalScene.SetAutorotating | BioViewer/Metal/Renderer/Scene/MetalScene.swift:68 | the observer asks for a redraw |
| MetalScenes.ShadowChangeReachesNextFrame | BioViewer/Metal/Renderer/Scene/MetalScene.swift:73-211 | after a shadow setter and one update, the drawn frame data carries the new flag and reprojection data exists |
| ProteinMath.AveragePosition | BioViewer/ProteinMath.swift:13-19 | the mean is the sum over the count, and there is none for an empty input |
| ProteinMath.NormalizeAtomPositions | BioViewer/ProteinMath.swift:21-25 | every element has `center` subtracted in place and the length is kept |
| ProteinMath.SumShifted | BioViewer/ProteinMath.swift:21-25 | shifting every position shifts the sum by count times the shift |
| ProteinMath.CentredAverageIsZero | BioViewer/ProteinMath.swift:13-25 | centring a non-empty input on its average gives positions that sum to zero |
| ProteinMath.ComputeBoundingBox | BioViewer/ProteinMath.swift:63-94 | the running minima and maxima; an empty input gives +infinity minima and -infinity maxima |
| ProteinMath.BoundsEncloseAndAttain | BioViewer/ProteinMath.swift:63-94 | for a non-empty input each axis's bounds are finite, enclose every atom and are attained by some atom |
| ProteinMath.ComputeBoundingSphere | BioViewer/ProteinMath.swift:34-52 | a single atom gives a sphere on it with radius `extraMargin`; an empty input gives none |
| ProteinMath.SphereEnclosesAtoms | BioViewer/ProteinMath.swift:39-52 | with a true square root, the sphere centred on the box midpoint encloses every atom with the margin to spare |
| ProteinMath.ComputeBoundingSphereOfProteins | BioViewer/ProteinMath.swift:55-61 | the sphere of all atoms of all proteins, protein after protein |
| Connectivity.MakeBond | BioViewer/Metal/Renderer/ConnectivityGenerator.swift:56-63 | the bond joins the two atoms, has radius 0.05 and is centred on their midpoint |
| Connectivity.AppendRow | BioViewer/Metal/Renderer/ConnectivityGenerator.swift:50-66 | the inner loop appends the bonds of row `indexA` to its close partners `indexB < indexA` of the same configuration, and counts them |
| Connectivity.ScanConfiguration | BioViewer/Metal/Renderer/ConnectivityGenerator.swift:40-68 | cancellation before some row stops the scan; otherwise every row of the configuration is appended in order |
| Connectivity.ComputeConnectivity | BioViewer/Metal/Renderer/ConnectivityGenerator.swift:20-86 | nothing is handed on exactly when the running `Task` is cancelled before some row; otherwise the bonds of all configurations in order, one count per configuration and the exclusive prefix sums of the counts |
| Connectivity.ConfigurationRange | BioViewer/Metal/Renderer/ConnectivityGenerator.swift:32-34 | configuration c owns the atoms `[c * n, c * n + n)` |
| Connectivity.AppendTotal | BioViewer/Metal/Renderer/ConnectivityGenerator.swift:72 | appending `(last ?? 0) + count` keeps the running totals |
| Connectivity.ShiftedTotalsAreStarts | BioViewer/Metal/Renderer/ConnectivityGenerator.swift:75-76 | inserting 0 in front and removing the last entry turns the running totals into the exclusive prefix sums |
| Connectivity.RowMembers | BioViewer/Metal/Renderer/ConnectivityGenerator.swift:50-65 | a row holds exactly the bonds to the close partners before the atom |
| Connectivity.BlockMembers | BioViewer/Metal/Renderer/ConnectivityGenerator.swift:40-66 | a configuration's bonds are exactly those of its close pairs `j < i`, each unordered pair examined once |
| Connectivity.CountsSumToBonds | BioViewer/Metal/Renderer/ConnectivityGenerator.swift:64-71 | the counts add up to the number of bonds |
| Connectivity.PrefixStable | BioViewer/Metal/Renderer/ConnectivityGenerator.swift:30-73 | earlier configurations keep their bonds and counts as later ones follow |
| Connectivity.ConfigurationSlice | BioViewer/Metal/Renderer/ConnectivityGenerator.swift:30-76 | the bonds of configuration k are the slice of the bond list that starts at its start index and is as long as its count |
| StatusActions.Title | BioViewer/Views/StatusView/StatusAction.swift:15-24 | a benchmark's title is "Benchmark " followed by the protein name |
| StatusActions.TitleMarks | BioViewer/Views/StatusView/StatusAction.swift:15-24 | "Import file" is the only title starting with I and "Ball and stick" the only one with a second letter a; a benchmark title ends with the protein name |
| StatusActions.TitleInjective | BioViewer/Views/StatusView/StatusAction.swift:15-24 | different action types have different titles |
| StatusActions.BlocksRendering | BioViewer/Views/StatusView/StatusAction.swift:26-35 | only importing a file blocks rendering |
| StatusActions.NewStatusAction | BioViewer/Views/StatusView/StatusAction.swift:61-66 | the initialiser stores type and progress; description and error default to none |
| StatusActions.ToUI | BioViewer/Views/StatusView/StatusAction.swift:45-51 | the UI copy keeps identity, type, description and error; its progress is the fraction completed, or none without a progress |
| StatusViewModels.WithoutIdMembers | BioViewer/Views/StatusView/StatusViewModel.swift:77-109 | `removeAll(where:)` keeps exactly the actions with another identity |
| StatusViewModels.WithoutIdRemovesAll | BioViewer/Views/StatusView/StatusViewModel.swift:77-109 | afterwards no action has that identity, and removing again changes nothing |
| StatusViewModels.PrimaryAction | BioViewer/Views/StatusView/StatusViewModel.swift:60-64 | the last failed action, else the last running one, else none |
| StatusViewModels.StatusViewModel.Sync | BioViewer/Views/StatusView/StatusViewModel.swift:56-66 | the shown lists become the internal ones and the shown action is the UI copy of the primary action |
| StatusViewModels.StatusViewModel.ShowStatusForAction | BioViewer/Views/StatusView/StatusViewModel.swift:68-70 | the action is appended to the running list |
| StatusViewModels.StatusViewModel.UpdateDescription | BioViewer/Views/StatusView/StatusViewModel.swift:72-81 | nothing for an action not running; otherwise every entry with its identity is removed and the updated copy appended at the end |
| StatusViewModels.StatusViewModel.UpdateProgress | BioViewer/Views/StatusView/StatusViewModel.swift:83-92 | as `updateDescription`, for the progress |
| StatusViewModels.StatusViewModel.SignalActionFinished | BioViewer/Views/StatusView/StatusViewModel.swift:94-105 | nothing for an action not running; otherwise it leaves the running list and joins the failed list exactly when an error is given |
| StatusViewModels.StatusViewModel.DismissAction | BioViewer/Views/StatusView/StatusViewModel.swift:107-110 | the action leaves both lists |
| StatusViewModels.BlockingIsImporting | BioViewer/Views/StatusView/StatusViewModel.swift:24-39 | `isBlockingUI` and `isImportingFile` always agree, since only imports block rendering |
| StatusViewModels.UpdateKeepsOthers | BioViewer/Views/StatusView/StatusViewModel.swift:72-81 | an update leaves the updated action in the list exactly once and keeps every other action |
| UtilityStatus.FirstWarningsKept | BioViewer/Views/UtilityViews/StatusViewModel.swift:64-67 | warnings arriving in order are kept first come, first served: the stored list is the first `cap` of old and new warnings together, never longer than the cap |
| UtilityStatus.StatusViewModel.constructor | BioViewer/Views/UtilityViews/StatusViewModel.swift:14-26 | a new model shows "Idle", is not running, and has no progress, error or warnings |
| UtilityStatus.StatusViewModel.Sync | BioViewer/Views/UtilityViews/StatusViewModel.swift:28-32 | the shown text, progress and warnings become the internal ones; the cap is kept |
| UtilityStatus.StatusViewModel.SetStatusText | BioViewer/Views/UtilityViews/StatusViewModel.swift:34-36 | only the internal text changes |
| UtilityStatus.StatusViewModel.SetRunningStatus | BioViewer/Views/UtilityViews/StatusViewModel.swift:38-52 | starting sets the running flag, schedules a new display link and makes it current, leaving earlier links scheduled, and keeps the internal text; stopping clears the flag, sets the internal text to "Idle" and queues one invalidation of whichever link is current when it runs |
| UtilityStatus.StatusViewModel.InvalidateDisplayLink | BioViewer/Views/UtilityViews/StatusViewModel.swift:46-48 | a queued invalidation runs once and stops the link that is current then, which need not be the one current at the stop |
| UtilityStatus.StatusViewModel.SetProgress | BioViewer/Views/UtilityViews/StatusViewModel.swift:54-56 | only the internal progress changes |
| UtilityStatus.StatusViewModel.SetError | BioViewer/Views/UtilityViews/StatusViewModel.swift:58-62 | the shown error is set |
| UtilityStatus.StatusViewModel.SetWarning | BioViewer/Views/UtilityViews/StatusViewModel.swift:64-67 | the warning is appended only while fewer than the cap are stored; the cap is never exceeded |
| UtilityStatus.StatusViewModel.RemoveAllWarnings | BioViewer/Views/UtilityViews/StatusViewModel.swift:69-74 | both warning lists become empty |
| UtilityStatus.StatusViewModel.RemoveAllErrors | BioViewer/Views/UtilityViews/StatusViewModel.swift:76-80 | the shown error is cleared |
| UtilityStatus.WarningShownAfterSync | BioViewer/Views/UtilityViews/StatusViewModel.swift:28-67 | a warning set and then synced is what the view shows, and the shown text is the internal one |
| UtilityStatus.RestartLeaksLink | BioViewer/Views/UtilityViews/StatusViewModel.swift:38-52 | start, start, stop and its invalidation leave the first link scheduled for good |
| UtilityStatus.QuickRestartStopsNewLink | BioViewer/Views/UtilityViews/StatusViewModel.swift:38-52 | start, stop, start and then the stop's invalidation leave the status running with its current link stopped |
| UtilityStatus.StopThenInvalidate | BioViewer/Views/UtilityViews/StatusViewModel.swift:38-52 | start, stop and its invalidation leave no link scheduled and the text "Idle" |
| FpsCounter.Window | BioViewer/Views/UtilityViews/FPSCounterView.swift:19-36 | the window the buffer should hold is the last `min(n, 100)` samples |
| FpsCounter.RotatedKeepsSamples | BioViewer/Views/UtilityViews/FPSCounterView.swift:31-36 | reading the ring from the index keeps every sample, with repetition |
| FpsCounter.StoredKeepsRing | BioViewer/Views/UtilityViews/FPSCounterView.swift:31-36 | one append-or-overwrite with the index advanced modulo 100 keeps the buffer, read from its index, equal to the last samples |
| FpsCounter.FpsCounterViewModel.UpdateFrameTime | BioViewer/Views/UtilityViews/FPSCounterView.swift:28-41 | appends below 100 samples and otherwise overwrites the slot at the index; the index advances modulo 100; the average is the buffer's sum over its length, which is never zero |
| FpsCounter.OverwriteRotates | BioViewer/Views/UtilityViews/FPSCounterView.swift:33-36 | overwriting the oldest slot of a full buffer drops the oldest sample and adds the new one as newest |
| FpsCounter.BufferHoldsLastSamples | BioViewer/Views/UtilityViews/FPSCounterView.swift:31-36 | after any number of updates the buffer holds exactly the last `min(n, 100)` samples |
| FpsCounter.SumRotated | BioViewer/Views/UtilityViews/FPSCounterView.swift:39 | the sum a reduction gives does not depend on where the ring starts |
| FpsCounter.SumAppend | BioViewer/Views/UtilityViews/FPSCounterView.swift:39 | the sum of a concatenation is the sum of the sums |
| FpsCounter.AverageOfWindow | BioViewer/Views/UtilityViews/FPSCounterView.swift:39 | the averaged sum is the sum of the last `min(n, 100)` samples |
| FileSource.FileSourceViewModel.constructor | BioViewer/Views/ProteinViews/Sidebar/Segments/FileSegmentProtein/FileSource/FileSourceViewModel.swift:25-38 | the first batch of 200 lines, or all lines when fewer, is loaded and one batch counted; without file info or source lines nothing is loaded |
| FileSource.FileSourceViewModel.LoadMore | BioViewer/Views/ProteinViews/Sidebar/Segments/FileSegmentProtein/FileSource/FileSourceViewModel.swift:46-57 | the next 200 lines are appended and the batch count advances; without file info or lines nothing changes |
| FileSource.FileSourceViewModel.HasWarning | BioViewer/Views/ProteinViews/Sidebar/Segments/FileSegmentProtein/FileSource/FileSourceViewModel.swift:59-67 | row `index` warns exactly when line `index + 1` is among the warning lines; never without file info |
| FileSource.PrefetchRowIsLoaded | BioViewer/Views/ProteinViews/Sidebar/Segments/FileSegmentProtein/FileSource/FileSourceViewModel.swift:42-44 | while batches are full, the row that triggers loading is the one 50 rows before the last loaded line, and it is a loaded row |
| FileSource.FileSourceViewModel.ShouldLoadMore | BioViewer/Views/ProteinViews/Sidebar/Segments/FileSegmentProtein/FileSource/FileSourceViewModel.swift:42-44 | true only for the row 50 before the end of the loaded batches; `FileSource.PrefetchRowIsLoaded` shows it is the row 50 before the last loaded line, and a loaded row |
| FileSource.LoadedIsPrefix | BioViewer/Views/ProteinViews/Sidebar/Segments/FileSegmentProtein/FileSource/FileSourceViewModel.swift:25-57 | the loaded lines are always a prefix of the file's lines |
| CompositionChart.PickFromIsFirstHit | BioViewer/Views/ProteinViews/Sidebar/Segments/FileSegmentProtein/FileAtomElementPopover/FileCompositionChartView.swift:39-54 | the scan from a segment picks the first later segment whose closed interval holds the value, and nothing exactly when none does |
| CompositionChart.PickIsFirstHit | BioViewer/Views/ProteinViews/Sidebar/Segments/FileSegmentProtein/FileAtomElementPopover/FileCompositionChartView.swift:39-54 | the segment selected is the first whose closed interval holds the value, so a shared boundary selects the earlier segment; nothing exactly when no interval holds it |
| CompositionChart.BeforeBounds | BioViewer/Views/ProteinViews/Sidebar/Segments/FileSegmentProtein/FileAtomElementPopover/FileCompositionChartView.swift:40-51 | with counts not negative, each segment starts within `[0, total]` |
| CompositionChart.OutsideSelectsNothing | BioViewer/Views/ProteinViews/Sidebar/Segments/FileSegmentProtein/FileAtomElementPopover/FileCompositionChartView.swift:39-54 | a value below 0 or above the total selects nothing |
| CompositionChart.FileCompositionChart.SetSelectedSegment | BioViewer/Views/ProteinViews/Sidebar/Segments/FileSegmentProtein/FileAtomElementPopover/FileCompositionChartView.swift:39-54 | the loop with a running total selects the first segment whose interval holds the value, or none |
| CompositionChart.FileCompositionChart.SelectedValueChanged | BioViewer/Views/ProteinViews/Sidebar/Segments/FileSegmentProtein/FileAtomElementPopover/FileCompositionChartView.swift:30-36 | a cleared angle selection keeps the selected segment; a new one selects as above |
| CompositionChart.FileCompositionChart.SegmentOpacity | BioViewer/Views/ProteinViews/Sidebar/Segments/FileSegmentProtein/FileAtomElementPopover/FileCompositionChartView.swift:56-63 | full opacity exactly when nothing is selected or the segment is the selected one, otherwise 0.3 |
| CompositionChart.FileCompositionChart.constructor | BioViewer/Views/ProteinViews/Sidebar/Segments/FileSegmentProtein/FileAtomElementPopover/FileCompositionChartView.swift:13-14 | the given segments and selected segment |
| UnitText.FirstMarkerFrom | BioViewer/Views/UtilityViews/UnitTextView.swift:33 | the index found is the first `_` or `^` from the start point on; none means there is no marker from there on |
| UnitText.FirstCloseFrom | BioViewer/Views/UtilityViews/UnitTextView.swift:51 | the index found is the first `}` from the start point on; none means there is none |
| UnitText.UnitTextView | BioViewer/Views/UtilityViews/UnitTextView.swift:28-77 | the loop builds exactly the pieces the recursive reading of the markup gives, or a single empty text when a brace is left open |
| UnitText.NoMarkersIsPlain | BioViewer/Views/UtilityViews/UnitTextView.swift:33-74 | text without markers is shown as it is |
| UnitText.BracedPiece | BioViewer/Views/UtilityViews/UnitTextView.swift:44-70 | `^{c}` raises and `_{c}` lowers the braced text, after the text before the marker, and the scan goes on after the `}` |
| UnitText.ShortTail | BioViewer/Views/UtilityViews/UnitTextView.swift:40-42 | fewer than three characters from the marker on are shown literally and end the label |
| UnitText.MarkerWithoutBrace | BioViewer/Views/UtilityViews/UnitTextView.swift:48-71 | a marker not followed by `{` is shown as itself and the scan goes on from the next character |
| UnitText.UnclosedBraceBlanks | BioViewer/Views/UtilityViews/UnitTextView.swift:55-57 | a `{` after a marker that no `}` closes blanks the whole label |
| UnitText.PrependJoin | BioViewer/Views/UtilityViews/UnitTextView.swift:38-71 | adding pieces in two steps is adding them at once |
| PipelineStates.PipelineStateBundle.GetPipelineState | BioViewer/Metal/Functions/PipelineStateBundle.swift:26-29 | without parameters the constant-free state; with parameters a state exactly when one is cached under them, and then that one |
| PipelineStates.PipelineStateBundle.RequiresBuilding | BioViewer/Metal/Functions/PipelineStateBundle.swift:33-61 | a build is needed exactly when no function exists or `getPipelineState` finds nothing for the parameters |
| PipelineStates.PipelineStateBundle.CreatePipelineState | BioViewer/Metal/Functions/PipelineStateBundle.swift:63-99 | without a library, or when a step fails, nothing changes; a build with constants only caches the state under them; a constant-free build sets the function and the constant-free state |
| PipelineStates.PipelineStateBundle.constructor | BioViewer/Metal/Functions/PipelineStateBundle.swift:15-21 | no function, no constant-free state and an empty cache |
| PipelineStates.ConstantBuildsKeepRequiringBuild | BioViewer/Metal/Functions/PipelineStateBundle.swift:36-81 | on a new bundle, builds with constants never set the function, so a build stays required even once the state is cached |
| PipelineStates.ConstantFreeBuildSuffices | BioViewer/Metal/Functions/PipelineStateBundle.swift:56-97 | after a successful constant-free build no constant-free build is required and the state is the one built |
| CompiledFunctions.CompiledFunction.CompileAsWritten | BioViewer/Metal/MTLCompiledFunction.swift:31-50 | the function and pipeline state are set together exactly when every step succeeds; otherwise nothing changes |
| CompiledFunctions.CompiledFunction.Compile | BioViewer/Metal/MTLCompiledFunction.swift:18-50 | as written, and the constant values are recorded, so a successful compile requires no recompiling with the same values and requires one with any others |
| CompiledFunctions.CompiledFunction.constructor | BioViewer/Metal/MTLCompiledFunction.swift:11-14 | the function, the pipeline state and the parameters all start as nil |
| CompiledFunctions.CompiledFunction.RequiresCompilation | BioViewer/Metal/MTLCompiledFunction.swift:16-29 | no compile is needed exactly when the function and the pipeline state exist and were built for these very parameters |
| CompiledFunctions.CompiledWithConstantsStillRequiresCompilation | BioViewer/Metal/MTLCompiledFunction.swift:14-49 | as written, a successful compile with constants leaves `requiresCompilation` true for those very constants |
| CompiledFunctions.CompiledWithConstantsIsUpToDate | BioViewer/Metal/MTLCompiledFunction.swift:18-29 | with the values recorded, the compile is up to date for its constants and not for none |
| PhotoMode.ShadowIsTwiceFinal | BioViewer/Views/ProteinViews/PhotoMode/PhotoModeViewModel.swift:18-46 | for every option the shadow size is twice the final texture size; an unknown option counts as high; sizes grow with the option |
| PhotoMode.PhotoModeViewModel.constructor | BioViewer/Views/ProteinViews/PhotoMode/PhotoModeViewModel.swift:14-33 | both pickers start at high and the configuration keeps its own sizes |
| PhotoMode.PhotoModeViewModel.SetFinalTextureSizeOption | BioViewer/Views/ProteinViews/PhotoMode/PhotoModeViewModel.swift:18-31 | the final size follows the new option: 1024, 2048, 4096, or 2048 for another value; nothing else changes |
| PhotoMode.PhotoModeViewModel.SetShadowResolution | BioViewer/Views/ProteinViews/PhotoMode/PhotoModeViewModel.swift:33-46 | the shadow size follows the final texture option, whatever value is set |
| PhotoMode.PickBoth | BioViewer/Views/ProteinViews/PhotoMode/PhotoModeViewModel.swift:18-46 | after picking a final option and any shadow option the shadow map is twice the final texture |
| FileRow.LabelMeansSize | BioViewer/Views/ProteinViews/Sidebar/Segments/FileSegmentProtein/FileRow.swift:29-42 | each size falls in exactly one unit; the shown number times its unit is the size, and lies in [1, 1024) from a kilobyte up to a gigabyte |
| FileRow.OnlyGigabytesDiffer | BioViewer/Views/ProteinViews/Sidebar/Segments/FileSegmentProtein/FileRow.swift:37-38 | the corrected label differs from the written one only in the gigabyte value, by a factor of 1024 |
| FileRow.OneGigabyteShownAs1024 | BioViewer/Views/ProteinViews/Sidebar/Segments/FileSegmentProtein/FileRow.swift:37-38 | as written, one gibibyte shows as 1024 GB; corrected it shows as 1 GB |
| FileRow.BytesStringAsWritten | BioViewer/Views/ProteinViews/Sidebar/Segments/FileSegmentProtein/FileRow.swift:29-42 | as written: bytes below 1 KiB, KB below 1 MiB, MB below 1 GiB, GB from 1 GiB on, the GB number times 1 MiB being the size |
| FileRow.BytesString | BioViewer/Views/ProteinViews/Sidebar/Segments/FileSegmentProtein/FileRow.swift:29-42 | corrected: the same units over the same ranges, the GB number times 1 GiB being the size |
| MolecularSurface.DecomposeInverts | BioViewer/Metal/Compute/ComputeMolecularSurfaceUtility.swift:35-46 | every cell id of the grid splits into a plane, row and column within the grid that give the id back |
| MolecularSurface.DecomposeInjective | BioViewer/Metal/Compute/ComputeMolecularSurfaceUtility.swift:40-46 | different cells have different grid positions |
| MolecularSurface.CentreInsideBox | BioViewer/Metal/Compute/ComputeMolecularSurfaceUtility.swift:36-50 | each centre coordinate lies inside the box, at least half a cell from its walls |
| MolecularSurface.InsideIdsAreInsideCells | BioViewer/Metal/Compute/ComputeMolecularSurfaceUtility.swift:58-64 | the inside cells are exactly those with a negative value, once each and in increasing order |
| MolecularSurface.DebugCreatePointsFromSdfGrid | BioViewer/Metal/Compute/ComputeMolecularSurfaceUtility.swift:33-66 | the points are the centres of the inside cells, in cell order |
| DynamicUti.AlphabetText | BioViewer/Files/Import/ImportDroppedFilesDelegate.swift:138 | the alphabet is "abcdefghkmnpqrstuvwxyz0123456789" |
| DynamicUti.AlphabetIsBase32 | BioViewer/Files/Import/ImportDroppedFilesDelegate.swift:138 | the alphabet has 32 distinct characters |
| DynamicUti.SymbolInjective | BioViewer/Files/Import/ImportDroppedFilesDelegate.swift:138-147 | different positions stand for different characters |
| DynamicUti.FirstIndexMeaning | BioViewer/Files/Import/ImportDroppedFilesDelegate.swift:147 | `firstIndex(of:)` finds the first occurrence, and none exactly when the character does not occur |
| DynamicUti.PositionOfSymbol | BioViewer/Files/Import/ImportDroppedFilesDelegate.swift:147 | each character of the alphabet stands for its own position |
| DynamicUti.PositionsMeaning | BioViewer/Files/Import/ImportDroppedFilesDelegate.swift:144-150 | the payload has positions exactly when every character is in the alphabet |
| DynamicUti.StepCases | BioViewer/Files/Import/ImportDroppedFilesDelegate.swift:151-160 | five bits are shifted in; with eight or more pending the top eight are emitted as a byte and only the low bits are kept, otherwise nothing is emitted |
| DynamicUti.Step | BioViewer/Files/Import/ImportDroppedFilesDelegate.swift:151-160 | the loop invariant: fewer than eight bits are pending and the pending value is below `2^bits` |
| DynamicUti.RunMeaning | BioViewer/Files/Import/ImportDroppedFilesDelegate.swift:144-161 | after any payload the emitted bytes are the payload's bit stream cut into bytes, in order, and the pending value is the bits after the last full byte |
| DynamicUti.ScanStep | BioViewer/Files/Import/ImportDroppedFilesDelegate.swift:144-160 | a character outside the alphabet makes the whole payload undecodable; another one extends the positions and the decoder state by one step |
| DynamicUti.DecodeDynamicUti | BioViewer/Files/Import/ImportDroppedFilesDelegate.swift:137-179 | the loop computes the decoded extension: none for a character outside the alphabet or nonzero leftover bits, otherwise the last piece of the text |
| DynamicUti.DecodeMeaning | BioViewer/Files/Import/ImportDroppedFilesDelegate.swift:140-178 | a decoded identifier has every payload character in the alphabet and only zero bits after the last full byte, and its extension is the last `=`-separated piece of those bytes' text |
| DynamicUti.ValueZero | BioViewer/Files/Import/ImportDroppedFilesDelegate.swift:163-166 | leftover bits have value zero exactly when they are all zero bits |
| DynamicUti.ValueOfToBits | BioViewer/Files/Import/ImportDroppedFilesDelegate.swift:151 | a number written as `n` bits reads back as itself |
| DynamicUti.ToBitsOfValue | BioViewer/Files/Import/ImportDroppedFilesDelegate.swift:151 | a bit string read as a number and written back is itself |
| DynamicUti.RoundTrip | BioViewer/Files/Import/ImportDroppedFilesDelegate.swift:140-178 | any five characters followed by the 5-bit encoding of some bytes, zero padded, decode to those bytes, so the extension is the last piece of their text |
| DynamicUti.LastPieceAfterSeparator | BioViewer/Files/Import/ImportDroppedFilesDelegate.swift:172-178 | the extension is the text after the last `=` when that is not empty |
| DynamicUti.PdbExample | BioViewer/Files/Import/ImportDroppedFilesDelegate.swift:170-178 | the text "?0=6:1=pdb" gives "pdb" |
| Text.Contains | BioViewer/Files/Import/Parsers/LegacyParsePDB.swift:149 | `contains` holds exactly when the text occurs somewhere |
| Text.FirstOccurrence | BioViewer/Files/Import/Parsers/ParseXYZ.swift:83-89 | the first offset where the text occurs, none exactly when it does not occur |
| Text.ComponentsSeparatedBy | BioViewer/Files/Import/Parsers/ParseXYZ.swift:83-89 | at least one piece; two or more exactly when the separator occurs; the first piece is what comes before its first occurrence |
| Text.RemoveWhere | BioViewer/Files/Import/Parsers/ParseXYZ.swift:83-85 | the characters kept are exactly those not matching, in order and with their counts |
| Text.RemoveSpaces | BioViewer/Files/Import/Parsers/ParsePDB.swift:78 | no space is left and every other character keeps its count |
| Text.TrimTrailingWhitespace | BioViewer/Files/Import/Parsers/ParsePDB.swift:96-98 | the longest prefix not ending in a Unicode `White_Space` character: what is dropped is all whitespace |
| Text.IsWhitespace | BioViewerPackages/XYZParser/Sources/XYZParser/XYZParser.swift:52 | exactly the Unicode `White_Space` characters, blanks and newlines |
| Text.TrimWhitespace | BioViewerPackages/CIFParser/Sources/CIFParser/CIFParser.swift:61 | the input with its leading and trailing whitespace removed: the slice that starts after the leading whitespace and is followed only by whitespace; empty, or starting and ending with a non-whitespace character; empty only for an all-whitespace input |
| Text.TrimBlanks | BioViewer/Files/Import/Parsers/PDBParser.swift:257 | `trimmingCharacters(in: .whitespaces)`: the slice after the leading blanks, followed only by blanks, and neither starting nor ending with a blank |
| Text.TrimmedPartsAreSlice | BioViewerPackages/CIFParser/Sources/CIFParser/CIFParser.swift:61 | dropping the trailing run and then the leading run of a character class leaves the slice after the leading run, followed only by characters of that class |
| Text.LeadingRun | BioViewerPackages/CIFParser/Sources/CIFParser/CIFParser.swift:61 | the length of the leading run of matching characters: all of them match, and the character after them, if any, does not |
| Text.TrimStart | BioViewerPackages/CIFParser/Sources/CIFParser/CIFParser.swift:61 | the suffix left starts with a kept character and everything dropped matched |
| Text.TrimEnd | BioViewerPackages/CIFParser/Sources/CIFParser/CIFParser.swift:61 | the prefix left ends with a kept character and everything dropped matched |
| Text.SplitBy | BioViewer/Files/Import/ImportDroppedFilesDelegate.swift:172 | `split(separator:)` gives non-empty pieces holding no separator |
| Text.Split | BioViewerPackages/CIFParser/Sources/CIFParser/CIFParser.swift:117 | `split(separator:)` gives non-empty pieces holding no separator |
| Text.SplitKeepsText | BioViewerPackages/CIFParser/Sources/CIFParser/CIFParser.swift:117 | the pieces written one after another are the input with its separators deleted, in order |
| Text.SplitAtSeparator | BioViewer/Files/Import/ImportDroppedFilesDelegate.swift:172 | a separator splits the pieces of both sides apart |
| Text.SplitWithoutSeparator | BioViewer/Files/Import/ImportDroppedFilesDelegate.swift:172 | non-empty text without separators is one piece |
| Text.Uppercased | BioViewerPackages/BioViewerFoundation/Sources/BioViewerFoundation/Types/AtomElement.swift:121 | same length; each ASCII letter upper-cased, every other character kept |
| Text.Lowercased | BioViewer/Files/Import/Parsers/ParseXYZ.swift:83 | same length; each ASCII letter lower-cased, every other character kept |
| Text.NatToString | BioViewerPackages/BioViewerFoundation/Sources/BioViewerFoundation/Types/ChainID.swift:98 | interpolating a number gives a non-empty string of digits |
| Text.NatToStringRoundTrip | BioViewerPackages/BioViewerFoundation/Sources/BioViewerFoundation/Types/ChainID.swift:98 | the decimal rendering of a number reads back as that number |
| Text.NatToStringNoLeadingZero | BioViewerPackages/BioViewerFoundation/Sources/BioViewerFoundation/Types/ChainID.swift:98 | the rendering starts with 0 only for 0 |
| PdbConstants.AtomFieldRanges | BioViewer/Files/Import/Parsers/PDBConstants.swift:15-47 | the residue name, residue id, x, y, z and element ranges do not overlap and end by the 78-character minimum line |
| PdbConstants.CoordinateFieldsContiguous | BioViewer/Files/Import/Parsers/PDBConstants.swift:33-43 | x, y and z are contiguous 8-column fields |
| PdbConstants.HeaderAndTitleLayout | BioViewer/Files/Import/Parsers/PDBConstants.swift:18-26 | the HEADER id code is 4 columns wide, and the 10-character TITLE prefix ends before the residue name |
| PdbConstants.Slice | BioViewer/Files/Import/Parsers/ParsePDB.swift:156-158 | the characters of the column range, in order |
| PdbConstants.Field | BioViewer/Files/Import/Parsers/ParsePDB.swift:160-189 | a field read has no spaces and is no wider than its range |
| PdbConstants.ReadPosition | BioViewer/Files/Import/Parsers/ParsePDB.swift:196-223 | a position exactly when all three coordinate fields parse, and then those three values; one failure discards all three |
| PdbConstants.HeaderText | BioViewer/Files/Import/Parsers/ParsePDB.swift:90-98 | the text after the keyword ends in no whitespace and is no longer than the line |
| PdbConstants.RecordNamesExclusive | BioViewer/Files/Import/Parsers/ParsePDB.swift:69-142 | no record name a reader tests starts with another, so a line starts with at most one of them |
| PdbRecords.HeaderRanges | BioViewerPackages/PDBParser/Sources/PDBParser/PDBConstants.swift:19-24 | the HEADER id code is columns 63-66 of the standard, four characters |
| PdbRecords.AtomRanges | BioViewerPackages/PDBParser/Sources/PDBParser/PDBConstants.swift:14-59 | the seven ATOM fields do not overlap and fit in 78 characters; x, y, z are contiguous and 8 wide |
| PdbRecords.HelixRanges | BioViewerPackages/PDBParser/Sources/PDBParser/PDBConstants.swift:61-70 | the HELIX chain-id and residue-id ranges do not overlap and fit in 78 characters |
| PdbRecords.SheetRanges | BioViewerPackages/PDBParser/Sources/PDBParser/PDBConstants.swift:72-81 | the SHEET chain-id and residue-id ranges do not overlap and fit in 78 characters |
| PdbRecords.PackageAgreesWithApp | BioViewerPackages/PDBParser/Sources/PDBParser/PDBConstants.swift:14-59 | the package's record constants and the app's flat constants name the same columns |
| PdbAtoms.Rank | BioViewer/Files/Import/Parsers/ParsePDB.swift:259-265 | a code's place in the C, N, H, O, S, others order; the last place exactly for the other codes |
| PdbAtoms.AcceptedAtomIsComplete | BioViewer/Files/Import/Parsers/ParsePDB.swift:142-223 | an ATOM line yields an atom exactly when it is long enough and all three coordinates parse, and the atom's position is those three values |
| PdbAtoms.HetatmNotAccepted | BioViewer/Files/Import/Parsers/ParsePDB.swift:141-142 | HETATM records never yield an atom |
| PdbAtoms.NotAtomRecord | BioViewer/Files/Import/Parsers/ParsePDB.swift:142 | only ATOM records yield atoms or residue ids |
| PdbAtoms.AcceptedAtomsEmpty | BioViewer/Files/Import/Parsers/ParsePDB.swift:299-301 | no atom is accepted exactly when no line yields one |
| PdbAtoms.GroupedPermutation | BioViewer/Files/Import/Parsers/ParsePDB.swift:259-265 | grouping by element keeps every atom exactly once |
| PdbAtoms.GroupedIsOrdered | BioViewer/Files/Import/Parsers/ParsePDB.swift:259-265 | the grouped layout is in C, N, H, O, S, others order |
| PdbAtoms.AddTally | BioViewerPackages/BioViewerFoundation/Sources/BioViewerFoundation/Models/ProteinComposition/ProteinElementComposition.swift:25-30 | the composition sum adds the totals |
| PdbAtoms.BucketsSnoc | BioViewer/Files/Import/Parsers/ParsePDB.swift:227-247 | reading one more atom is one step of the element switch |
| PdbAtoms.ElementSwitchCases | BioViewer/Files/Import/Parsers/ParsePDB.swift:227-247 | the switch adds the position to its element's array and counter, and the code to the other codes for another element |
| PdbAtoms.BucketsLayout | BioViewer/Files/Import/Parsers/ParsePDB.swift:259-279 | the arrays concatenated C, N, H, O, S, others, with the identifiers repeated per counter, are exactly the grouped layout: identifier `k` describes position `k` |
| PdbAtoms.ResiduesWellTracked | BioViewer/Files/Import/Parsers/ParsePDB.swift:160-175 | the residue id and name lists grow together, no two neighbouring ids are equal, and the current id is the last recorded |
| PdbAtoms.JoinedText | BioViewer/Files/Import/Parsers/ParsePDB.swift:85-107 | TITLE or AUTHOR text exists exactly when some line starts with the keyword |
| PdbAtoms.JoinedTextEndsWithLast | BioViewer/Files/Import/Parsers/ParsePDB.swift:100-106 | the latest line's text ends the joined text |
| ParsePdb.Inherited | BioViewer/Files/Import/Parsers/ParsePDB.swift:42-45 | the file info starts from the caller's values, or all none without one |
| ParsePdb.Groups | BioViewer/Files/Import/Parsers/ParsePDB.swift:227-247 | one subunit to start with and one more per TER record |
| ParsePdb.Kept | BioViewer/Files/Import/Parsers/ParsePDB.swift:286-297 | each listed subunit is a non-empty group with its size as atom count |
| ParsePdb.KeptIdsIncrease | BioViewer/Files/Import/Parsers/ParsePDB.swift:288-297 | kept subunits appear in group order |
| ParsePdb.KeptComplete | BioViewer/Files/Import/Parsers/ParsePDB.swift:288-297 | every non-empty group is listed |
| ParsePdb.KeptPacked | BioViewer/Files/Import/Parsers/ParsePDB.swift:293-296 | each kept subunit starts where the kept ones before it end, and together they cover all atoms |
| ParsePdb.LineWarnings | BioViewer/Files/Import/Parsers/ParsePDB.swift:146-223 | every warning a line records carries its line number |
| ParsePdb.GroupsFlatten | BioViewer/Files/Import/Parsers/ParsePDB.swift:136-247 | reading the subunits back in order gives the accepted atoms in line order |
| ParsePdb.LayoutIsPermutationOfAccepted | BioViewer/Files/Import/Parsers/ParsePDB.swift:259-280 | the output atoms are a permutation of the accepted atoms |
| ParsePdb.GroupsTallyCountsAll | BioViewer/Files/Import/Parsers/ParsePDB.swift:282-284 | the merged composition counts, per element, the atoms of all subunits |
| ParsePdb.TallyOfAtomsTotal | BioViewer/Files/Import/Parsers/ParsePDB.swift:253-256 | the composition's total is the number of atoms it counts |
| ParsePdb.WarningsMeaning | BioViewer/Files/Import/Parsers/ParsePDB.swift:146-223 | line `n` is in the warning list exactly when it is an ATOM line that is too short or has an unreadable residue id or coordinate |
| ParsePdb.RejectedAtomIsWarned | BioViewer/Files/Import/Parsers/ParsePDB.swift:146-223 | an ATOM record that yields no atom records a warning; an accepted one records one exactly when its residue id is unreadable |
| ParsePdb.ReadAtomRecord | BioViewer/Files/Import/Parsers/ParsePDB.swift:142-249 | the ATOM branch updates the residue track, the warnings and the last subunit's arrays as the specification's one step |
| ParsePdb.ConcatenateSubunits | BioViewer/Files/Import/Parsers/ParsePDB.swift:259-280 | the concatenation loop lays out each subunit's arrays in C, N, H, O, S, others order with aligned identifiers |
| ParsePdb.MergeCompositions | BioViewer/Files/Import/Parsers/ParsePDB.swift:282-284 | the merged composition counts all accepted atoms |
| ParsePdb.ListSubunits | BioViewer/Files/Import/Parsers/ParsePDB.swift:286-297 | the subunit loop skips empty subunits and gives each kept one its prefix-sum start |
| ParsePdb.AppendText | BioViewer/Files/Import/Parsers/ParsePDB.swift:100-132 | the line's text is appended to what was collected, or starts it |
| ParsePdb.ReadLine | BioViewer/Files/Import/Parsers/ParsePDB.swift:63-250 | one line: the HEADER id only when none is known, TITLE and AUTHOR text joined only when none is known, TER opens a subunit, ATOM as above |
| ParsePdb.ScanLines | BioViewer/Files/Import/Parsers/ParsePDB.swift:63-250 | the loop keeps every collected value equal to the specification of the lines read |
| ParsePdb.ParsePdbLike | BioViewer/Files/Import/Parsers/ParsePDB.swift:31-320 | `emptyAtomCount` exactly when no atom is accepted; otherwise one configuration, subunit count the TER count, grouped atoms with aligned identifiers, the composition of the accepted atoms, the kept subunits, the de-duplicated sequence, the warnings, and the caller's id, description and authors unless missing |
| ImportFiles.OriginalScanStep | BioViewer/ImportFiles.swift:90-223 | the accepted atoms, residues and TITLE text of one more line are one step from those before |
| ImportFiles.ReadOriginalAtom | BioViewer/ImportFiles.swift:118-222 | the ATOM branch: the length check, the residue bookkeeping, the coordinates and the element switch as one specification step |
| ImportFiles.ReadOriginalLine | BioViewer/ImportFiles.swift:90-223 | a TITLE line extends the description, an ATOM line is read as above |
| ImportFiles.ConcatenateBuckets | BioViewer/ImportFiles.swift:225-243 | the arrays in C, N, H, O, S, others order with identifiers aligned index for index |
| ImportFiles.ParsePdbOriginal | BioViewer/ImportFiles.swift:49-256 | `emptyAtomCount` exactly when no atom is accepted; otherwise the grouped atoms with aligned identifiers, the de-duplicated residues, the joined TITLE text and no PDB id |
| LegacyPdb.LegacyReading | BioViewer/Files/Import/Parsers/LegacyParsePDB.swift:191-209 | an atom exactly when the three coordinates parse, with z negated |
| LegacyPdb.AppendToLast | BioViewer/Files/Import/Parsers/LegacyParsePDB.swift:208-209 | appending to the last subunit keeps the number of subunits |
| LegacyPdb.AtomWarnings | BioViewer/Files/Import/Parsers/LegacyParsePDB.swift:115-201 | every warning `parseAtom` records carries the line number, at most two per line |
| LegacyPdb.LineStepProteins | BioViewer/Files/Import/Parsers/LegacyParsePDB.swift:363-367 | only an ENDMDL line adds a protein, and exactly one |
| LegacyPdb.StartsWater | BioViewer/Files/Import/Parsers/LegacyParsePDB.swift:132-151 | a line dropped as water has "HOH" in its residue-name field |
| LegacyPdb.FinalProteins | BioViewer/Files/Import/Parsers/LegacyParsePDB.swift:263-267 | at least one protein: those ENDMDL produced when there are any, otherwise exactly one |
| LegacyPdb.ProteinCount | BioViewer/Files/Import/Parsers/LegacyParsePDB.swift:306-368 | the line loop adds one protein per ENDMDL record |
| LegacyPdb.ProteinsGrow | BioViewer/Files/Import/Parsers/LegacyParsePDB.swift:256 | proteins are only ever appended: those after a prefix of the lines begin the final list |
| LegacyPdb.ProteinsStable | BioViewer/Files/Import/Parsers/LegacyParsePDB.swift:363-367 | lines without ENDMDL leave the protein list alone |
| LegacyPdb.AfterLastEndmdlDiscarded | BioViewer/Files/Import/Parsers/LegacyParsePDB.swift:263-267 | when the file has an ENDMDL, the proteins are those up to the last one, so later atoms are discarded |
| LegacyPdb.LeadingEndmdlFails | BioViewer/Files/Import/Parsers/LegacyParsePDB.swift:374-378 | an ENDMDL before any atom makes an empty protein, so the import fails with `emptyAtomCount` |
| LegacyPdb.RunKeepsShape | BioViewer/Files/Import/Parsers/LegacyParsePDB.swift:271-280 | the model always has at least one subunit and its bookkeeping stays consistent |
| LegacyPdb.HeaderRecordsExclusive | BioViewer/Files/Import/Parsers/LegacyParsePDB.swift:310-357 | a HEADER, TITLE or AUTHOR line is none of the records checked before it in the chain |
| LegacyPdb.EndmdlIsOnlyEndmdl | BioViewer/Files/Import/Parsers/LegacyParsePDB.swift:310-363 | an ENDMDL line is none of the records checked before it |
| LegacyPdb.LineStepInfo | BioViewer/Files/Import/Parsers/LegacyParsePDB.swift:325-356 | a header record fills its field only when the caller did not know it |
| LegacyPdb.RunPdbId | BioViewer/Files/Import/Parsers/LegacyParsePDB.swift:325-334 | a known id is kept; otherwise it is the last HEADER line's |
| LegacyPdb.RunDescription | BioViewer/Files/Import/Parsers/LegacyParsePDB.swift:335-345 | a known description is kept; otherwise it is the joined TITLE text |
| LegacyPdb.RunAuthors | BioViewer/Files/Import/Parsers/LegacyParsePDB.swift:346-356 | known authors are kept; otherwise they are the joined AUTHOR text |
| LegacyPdb.RunWarnings | BioViewer/Files/Import/Parsers/LegacyParsePDB.swift:115-201 | every warning recorded is the number of an ATOM or HETATM line |
| LegacyPdb.WaterDroppedOnlyAtNewResidue | BioViewer/Files/Import/Parsers/LegacyParsePDB.swift:134-151 | a water atom is dropped only when it starts a new residue, whose id is still recorded but not its name; a later atom of that residue is kept |
| LegacyPdb.ProteinOfLayout | BioViewer/Files/Import/Parsers/LegacyParsePDB.swift:214-258 | a protein's arrays are aligned, its composition total is its atom count, and its subunits are consecutive slices covering all atoms |
| LegacyPdb.StripTrailingWhitespace | BioViewer/Files/Import/Parsers/LegacyParsePDB.swift:66-68 | the loop strips exactly the trailing whitespace |
| LegacyPdb.RecordText | BioViewer/Files/Import/Parsers/LegacyParsePDB.swift:59-69 | the text of a TITLE or AUTHOR line is the shared header text |
| LegacyPdb.CountAtoms | BioViewer/Files/Import/Parsers/LegacyParsePDB.swift:217-220 | the first loop counts every atom of every subunit |
| LegacyPdb.AppendSubunitAtoms | BioViewer/Files/Import/Parsers/LegacyParsePDB.swift:222-225 | every subunit's positions and types are appended in subunit order |
| LegacyPdb.SubunitsTallyCountsAll | BioViewer/Files/Import/Parsers/LegacyParsePDB.swift:227-230 | summing the subunit compositions counts every atom once |
| LegacyPdb.MergeSubunitCompositions | BioViewer/Files/Import/Parsers/LegacyParsePDB.swift:227-230 | the composition loop adds each subunit's counts to the total |
| LegacyPdb.AddTallyAssociative | BioViewer/Files/Import/Parsers/LegacyParsePDB.swift:227-230 | adding compositions is associative |
| LegacyPdb.ListLegacySubunits | BioViewer/Files/Import/Parsers/LegacyParsePDB.swift:233-242 | empty subunits are skipped and each kept one starts where the previous kept one ended |
| LegacyPdb.AssembleProtein | BioViewer/Files/Import/Parsers/LegacyParsePDB.swift:214-254 | the flat arrays and the composition are filled from the subunits and the protein built from them |
| LegacyPdb.AllHaveAtoms | BioViewer/Files/Import/Parsers/LegacyParsePDB.swift:374-378 | the import goes on exactly when every protein has atoms |
| LegacyPdb.LegacyPdbParser.constructor | BioViewer/Files/Import/Parsers/LegacyParsePDB.swift:42 | a new parser has one empty subunit, no proteins, no file info and no line read |
| LegacyPdb.LegacyPdbParser.ParseHeaderLine | BioViewer/Files/Import/Parsers/LegacyParsePDB.swift:47-57 | the id code with spaces removed becomes the PDB id |
| LegacyPdb.LegacyPdbParser.ParseTitleLine | BioViewer/Files/Import/Parsers/LegacyParsePDB.swift:59-79 | the line's text is appended to the description, or starts it |
| LegacyPdb.LegacyPdbParser.ParseAuthorLine | BioViewer/Files/Import/Parsers/LegacyParsePDB.swift:81-101 | the line's text is appended to the authors, or starts them |
| LegacyPdb.LegacyPdbParser.ReadResidue | BioViewer/Files/Import/Parsers/LegacyParsePDB.swift:127-160 | reports whether the line starts a water residue; a new residue id is recorded, and its name unless water |
| LegacyPdb.LegacyPdbParser.ParseAtom | BioViewer/Files/Import/Parsers/LegacyParsePDB.swift:115-210 | a short line only records a warning; otherwise residue bookkeeping, then the atom with z negated at the end of the last subunit |
| LegacyPdb.LegacyPdbParser.ParseLongAtom | BioViewer/Files/Import/Parsers/LegacyParsePDB.swift:125-210 | past the length guard: the residue bookkeeping with its early return on water, then the coordinates |
| LegacyPdb.LegacyPdbParser.ReadCoordinates | BioViewer/Files/Import/Parsers/LegacyParsePDB.swift:186-209 | unreadable coordinates record a warning; readable ones put the atom, z negated, at the end of the last subunit |
| LegacyPdb.LegacyPdbParser.ResetProteinVariables | BioViewer/Files/Import/Parsers/LegacyParsePDB.swift:271-280 | back to one empty subunit of id 0, no residues, empty arrays and current residue -1 |
| LegacyPdb.LegacyPdbParser.CreateNewProtein | BioViewer/Files/Import/Parsers/LegacyParsePDB.swift:214-259 | the current model becomes the next protein and the model is reset |
| LegacyPdb.LegacyPdbParser.CreateLastProteinIfNeeded | BioViewer/Files/Import/Parsers/LegacyParsePDB.swift:263-267 | without a protein so far, the whole model becomes the one protein; otherwise nothing changes |
| LegacyPdb.LegacyPdbParser.ParseLine | BioViewer/Files/Import/Parsers/LegacyParsePDB.swift:306-368 | one pass of the line loop is one step of the specification |
| LegacyPdb.LegacyPdbParser.ParseOtherRecord | BioViewer/Files/Import/Parsers/LegacyParsePDB.swift:315-356 | HELIX and SHEET are ignored; header records fill only what is not known |
| LegacyPdb.LegacyPdbParser.ParseInfoRecord | BioViewer/Files/Import/Parsers/LegacyParsePDB.swift:325-356 | HEADER, TITLE and AUTHOR lines fill the file information only where it is not known, as the line step says |
| LegacyPdb.LegacyPdbParser.ParseModelRecord | BioViewer/Files/Import/Parsers/LegacyParsePDB.swift:357-367 | TER opens the next subunit with the new count as id; ENDMDL turns the model into a protein |
| LegacyPdb.LegacyPdbParser.ReadLines | BioViewer/Files/Import/Parsers/LegacyParsePDB.swift:306-368 | the loop reads every line in order, the counter advanced before each |
| LegacyPdb.LegacyPdbParser.ParsePdb | BioViewer/Files/Import/Parsers/LegacyParsePDB.swift:284-390 | the file info starts from what is known, all lines are read, the last model becomes a protein if none was made, and an empty protein rejects the file |
| PdbParser.Mirrored | BioViewer/Files/Import/Parsers/PDBParser.swift:298 | x and y kept, z negated |
| PdbParser.AtomRecord | BioViewer/Files/Import/Parsers/PDBParser.swift:300-306 | the record holds the line index, residue id, trimmed residue name, element code and mirrored position |
| PdbParser.ParseAtom | BioViewer/Files/Import/Parsers/PDBParser.swift:233-307 | `unexpectedLineLength` below 78 characters, then `missingResidueID` for an unreadable id, then none for water, then `invalidAtomCoordinates` or the record |
| PdbParser.WaterBeforeCoordinates | BioViewer/Files/Import/Parsers/PDBParser.swift:249-264 | water is dropped before the coordinates are read, while an unreadable residue id is an error for water too |
| PdbParser.TryParseAtom | BioViewer/Files/Import/Parsers/PDBParser.swift:221 | `try?` gives the record exactly when the line parsed and was not water |
| PdbParser.Merged | BioViewer/Files/Import/Parsers/PDBParser.swift:37-41 | merging extends each list by the other's |
| PdbParser.ScanSplit | BioViewer/Files/Import/Parsers/PDBParser.swift:96-117 | parsing two runs of lines and merging them in order gives the records of the whole run |
| PdbParser.ScanPrefixSplit | BioViewer/Files/Import/Parsers/PDBParser.swift:99-117 | the scan of a prefix splits where a block starts |
| PdbParser.ScanSnoc | BioViewer/Files/Import/Parsers/PDBParser.swift:105-108 | one more line is one more step of the scan |
| PdbParser.MergedLineStep | BioViewer/Files/Import/Parsers/PDBParser.swift:37-41 | a line's records land at the end of the block they are merged into |
| PdbParser.LineStepLists | BioViewer/Files/Import/Parsers/PDBParser.swift:219-229 | an accepted atom line adds its record, TER and ENDMDL add their index, and nothing else adds anything |
| PdbParser.ScanIsMeaningful | BioViewer/Files/Import/Parsers/PDBParser.swift:219-229 | every record points back at the line it came from, in line order, so the lists are sorted by line already |
| PdbParser.ReaderKeepsLine | BioViewer/Files/Import/Parsers/PDBParser.swift:300-306 | the record read from a line carries that line's index |
| PdbParser.ParsedBlock.constructor | BioViewer/Files/Import/Parsers/PDBParser.swift:30-34 | a new block has no records |
| PdbParser.ParsedBlock.Append | BioViewer/Files/Import/Parsers/PDBParser.swift:37-41 | the block's lists are extended by the other block's |
| PdbParser.ParseLine | BioViewer/Files/Import/Parsers/PDBParser.swift:219-229 | a failed or water atom line adds nothing, an accepted one its record, TER and ENDMDL their line index |
| PdbParser.BlockCount | BioViewer/Files/Import/Parsers/PDBParser.swift:91 | the fewest blocks of 1024 lines that hold every line |
| PdbParser.Min | BioViewer/Files/Import/Parsers/PDBParser.swift:101 | the smaller of two numbers |
| PdbParser.ParseBlock | BioViewer/Files/Import/Parsers/PDBParser.swift:103-110 | a task parses lines `start..<end` into a fresh block |
| PdbParser.ParseBlocks | BioViewer/Files/Import/Parsers/PDBParser.swift:96-117 | the blocks, merged in block order, hold the records of the whole file |
| PdbParser.Chain | BioViewer/Files/Import/Parsers/PDBParser.swift:126-133 | one range per end |
| PdbParser.ChainShape | BioViewer/Files/Import/Parsers/PDBParser.swift:127-132 | range `k` ends at end `k` and starts right after the one before |
| PdbParser.TersIn | BioViewer/Files/Import/Parsers/PDBParser.swift:146-147 | the TER lines inside a model, in order |
| PdbParser.ChainCovers | BioViewer/Files/Import/Parsers/PDBParser.swift:126-133 | a line is in a chained range exactly when it lies after the start and by the last end |
| PdbParser.ChainDisjoint | BioViewer/Files/Import/Parsers/PDBParser.swift:126-133 | chained ranges over increasing ends do not overlap |
| PdbParser.ModelCoverage | BioViewer/Files/Import/Parsers/PDBParser.swift:121-134 | with no ENDMDL every line is in the one model; otherwise exactly lines 1 to the last ENDMDL are in a model, and none is in two |
| PdbParser.SubunitCoverage | BioViewer/Files/Import/Parsers/PDBParser.swift:138-156 | with no TER a model's subunit is the model; otherwise a line is in a subunit exactly when it lies after the model's start and by its last TER, so later atoms are unassigned; none in two |
| PdbParser.ChainInModel | BioViewer/Files/Import/Parsers/PDBParser.swift:144-155 | a model's TER chain covers lines of the model only |
| PdbParser.BuildModelRanges | BioViewer/Files/Import/Parsers/PDBParser.swift:121-134 | the model loop builds the specified model ranges |
| PdbParser.ModelRanges | BioViewer/Files/Import/Parsers/PDBParser.swift:121-134 | one model over all lines without ENDMDL; otherwise one model per ENDMDL ending at it, the first starting at line 1 and each later one right after the previous ENDMDL |
| PdbParser.FileModels | BioViewer/Files/Import/Parsers/PDBParser.swift:121-215 | one protein per model range, so at least one |
| PdbParser.TersInFrom | BioViewer/Files/Import/Parsers/PDBParser.swift:146-153 | the TER lines of a model from one position on |
| PdbParser.ChainCons | BioViewer/Files/Import/Parsers/PDBParser.swift:145-152 | the chain starting with one end |
| PdbParser.SubunitsInModel | BioViewer/Files/Import/Parsers/PDBParser.swift:145-154 | the inner TER loop builds the model's chained subunits |
| PdbParser.BuildSubunitRanges | BioViewer/Files/Import/Parsers/PDBParser.swift:138-156 | the subunit loops build the specified subunits of every model |
| PdbParser.AtomsIn | BioViewer/Files/Import/Parsers/PDBParser.swift:163-165 | the filter keeps exactly the atom records whose line is in the closed range |
| PdbParser.AtomsInCount | BioViewer/Files/Import/Parsers/PDBParser.swift:163-165 | a record occurs among a subunit's atoms as often as among all records when in range, never otherwise |
| PdbParser.AtomsInMergeOrder | BioViewer/Files/Import/Parsers/PDBParser.swift:115-116 | a subunit's atoms, as a multiset, do not depend on the order the blocks were merged in |
| PdbParser.ModelRecordsMembers | BioViewer/Files/Import/Parsers/PDBParser.swift:162-172 | a model holds exactly the records that lie in one of its subunits |
| PdbParser.AtomsOf | BioViewer/Files/Import/Parsers/PDBParser.swift:166-170 | the positions and types of a run of records |
| PdbParser.ResiduesOf | BioViewer/Files/Import/Parsers/PDBParser.swift:168 | the residues of a run of records |
| PdbParser.AppendRecords | BioViewer/Files/Import/Parsers/PDBParser.swift:166-170 | each record's position, residue and type appended |
| PdbParser.AssignAtoms | BioViewer/Files/Import/Parsers/PDBParser.swift:162-172 | every subunit takes the records of its range and its atom count is their number |
| PdbParser.FinalSubunits | BioViewer/Files/Import/Parsers/PDBParser.swift:177-189 | ids 0, 1, 2, … in order, each starting where the atoms of the subunits before it end |
| PdbParser.NumberedPacked | BioViewer/Files/Import/Parsers/PDBParser.swift:179-189 | the numbered subunits with running starts tile the atom array |
| PdbParser.ModelRecordsCount | BioViewer/Files/Import/Parsers/PDBParser.swift:171 | a model's records are as many as its subunits' atom counts sum to |
| PdbParser.BuildProtein | BioViewer/Files/Import/Parsers/PDBParser.swift:177-202 | the protein of one model |
| PdbParser.ModelProteins | BioViewer/Files/Import/Parsers/PDBParser.swift:177-203 | one protein per model range |
| PdbParser.ModelProteinsAt | BioViewer/Files/Import/Parsers/PDBParser.swift:177-203 | protein `k` is the protein of model `k` |
| PdbParser.BuildProteins | BioViewer/Files/Import/Parsers/PDBParser.swift:177-203 | the assembly loop builds one protein per model, in order |
| PdbParser.ModelProteinShape | BioViewer/Files/Import/Parsers/PDBParser.swift:177-202 | subunits numbered 0, 1, 2, … tile the atoms, each counts its records, arrays are aligned, and the composition counts every atom |
| PdbParser.NumberedSubunitsShape | BioViewer/Files/Import/Parsers/PDBParser.swift:177-189 | the numbered subunits of a model tile its records |
| PdbParser.ParsePdbFile | BioViewer/Files/Import/Parsers/PDBParser.swift:80-215 | the file holds the proteins of the non-empty lines split at newlines, a static structure named with the source's placeholders |
| CifParser.SafeGet | BioViewerPackages/CIFParser/Sources/CIFParser/CIFParser.swift:236-238 | an element exactly when the index is in bounds, and then the element at that index |
| CifParser.ParseEntryId | BioViewerPackages/CIFParser/Sources/CIFParser/CIFParser.swift:36-41 | nil exactly when the line has fewer than two space-separated tokens, else the second token, which is not empty and holds no space |
| CifParser.SavedCount | BioViewerPackages/CIFParser/Sources/CIFParser/CIFParser.swift:68 | zero exactly when no listed category is one to save, and never more than the categories listed |
| CifParser.RowValues | BioViewerPackages/CIFParser/Sources/CIFParser/CIFParser.swift:74-85 | the categories kept are the same, and categories that are not saved or not listed keep their values |
| CifParser.RowValuesSnoc | BioViewerPackages/CIFParser/Sources/CIFParser/CIFParser.swift:74 | one more category is one more step of the row loop |
| CifParser.RowValuesAppendOne | BioViewerPackages/CIFParser/Sources/CIFParser/CIFParser.swift:74-85 | in a loop with distinct names every saved category gains exactly the token at its header's position, or an empty text past the last token |
| CifParser.LoopLineStep | BioViewerPackages/CIFParser/Sources/CIFParser/CIFParser.swift:58-86 | a header adds its trimmed name to the keys; a data row keeps the names and the keys; the loop ends discarded exactly when it was discarded or a data row meets it without saved categories |
| CifParser.SavedListsGrowTogether | BioViewerPackages/CIFParser/Sources/CIFParser/CIFParser.swift:66-85 | a kept data row adds one value to every saved list and leaves the other lists as they were |
| CifParser.RunFromSnoc | BioViewerPackages/CIFParser/Sources/CIFParser/CIFParser.swift:120-122 | one more line is one more step of the line loop |
| CifParser.LineStep | BioViewerPackages/CIFParser/Sources/CIFParser/CIFParser.swift:45-94 | only a `loop_` line adds a loop, and exactly one; the entry id changes only on an entry-id line read before any loop |
| CifParser.CommentIgnored | BioViewerPackages/CIFParser/Sources/CIFParser/CIFParser.swift:47-50 | a comment line changes nothing |
| CifParser.DirectivesExclusive | BioViewerPackages/CIFParser/Sources/CIFParser/CIFParser.swift:47-88 | the comment, `loop_` and header prefixes and the entry-id tag select one branch at most |
| CifParser.LoopLineOpensLoop | BioViewerPackages/CIFParser/Sources/CIFParser/CIFParser.swift:52-56 | a `loop_` line appends an empty loop and keeps the entry id |
| CifParser.LineStepTouchesLastLoop | BioViewerPackages/CIFParser/Sources/CIFParser/CIFParser.swift:58-86 | once a loop exists, a line changes the last loop only, keeps the entry id and adds at most one loop |
| CifParser.HeaderAddsCategory | BioViewerPackages/CIFParser/Sources/CIFParser/CIFParser.swift:59-63 | a header line inside a loop appends its trimmed name and resets its values to the empty list |
| CifParser.DataRowDiscards | BioViewerPackages/CIFParser/Sources/CIFParser/CIFParser.swift:66-71 | a discarded loop ignores data rows; the first data row of a loop without saved categories marks it discarded and changes nothing else |
| CifParser.EntryIdLine | BioViewerPackages/CIFParser/Sources/CIFParser/CIFParser.swift:87-93 | before any loop an entry-id line with a second token sets the entry id to it, and no other line changes the entry id |
| CifParser.LineStepKeepsShape | BioViewerPackages/CIFParser/Sources/CIFParser/CIFParser.swift:45-94 | every line keeps every loop well formed |
| CifParser.LoopLineStepKeepsShape | BioViewerPackages/CIFParser/Sources/CIFParser/CIFParser.swift:58-86 | a line read into a well-formed loop leaves it well formed |
| CifParser.HeaderKeepsShape | BioViewerPackages/CIFParser/Sources/CIFParser/CIFParser.swift:59-63 | a header line keeps the keys equal to the listed names and unsaved lists empty |
| CifParser.RunKeepsShape | BioViewerPackages/CIFParser/Sources/CIFParser/CIFParser.swift:120-122 | reading lines keeps every loop well formed |
| CifParser.ScanLoopsShaped | BioViewerPackages/CIFParser/Sources/CIFParser/CIFParser.swift:117-122 | every loop of a file's scan is well formed |
| CifParser.RunFreezesEarlierLoops | BioViewerPackages/CIFParser/Sources/CIFParser/CIFParser.swift:52-86 | later lines never change earlier loops or the entry id once a loop is open, nor remove a loop |
| CifParser.RunFromAppend | BioViewerPackages/CIFParser/Sources/CIFParser/CIFParser.swift:120-122 | the scan of two runs of lines is the scan of the second from the state after the first |
| CifParser.EntryIdBeforeFirstLoop | BioViewerPackages/CIFParser/Sources/CIFParser/CIFParser.swift:87-93 | a file's entry id is fixed by the lines before its first `loop_` line |
| CifParser.ColumnsOf | BioViewerPackages/CIFParser/Sources/CIFParser/CIFParser.swift:126-139 | the guard passes exactly when `group_PDB` and the coordinate and element lists are present with the `group_PDB` count, and then gives those columns |
| CifParser.RowAtom | BioViewerPackages/CIFParser/Sources/CIFParser/CIFParser.swift:143-163 | a row gives an atom exactly when its coordinates parse and it is not aligned water, then with z negated and the element of its `type_symbol` |
| CifParser.ChainOf | BioViewerPackages/CIFParser/Sources/CIFParser/CIFParser.swift:181 | a single capital letter gives its chain index, anything else chain zero |
| CifParser.AtomsAreAcceptedRows | BioViewerPackages/CIFParser/Sources/CIFParser/CIFParser.swift:143-164 | the atoms are exactly the accepted rows: each atom comes from an earlier row and each accepted row gives an atom |
| CifParser.ColumnsAlign | BioViewerPackages/CIFParser/Sources/CIFParser/CIFParser.swift:143-199 | the atom list misses exactly the non-water rows whose coordinates fail to parse; the chain and residue lists have one entry per non-water row |
| CifParser.AsWrittenColumnsRunAhead | BioViewerPackages/CIFParser/Sources/CIFParser/CIFParser.swift:143-199 | as written, once a non-water row has unreadable coordinates the chain and residue lists are longer than the atom list |
| CifParser.AcceptedRows | BioViewerPackages/CIFParser/Sources/CIFParser/CIFParser.swift:142-163 | the rows that give an atom, each in range and accepted |
| CifParser.AcceptedRowsGiveAtoms | BioViewerPackages/CIFParser/Sources/CIFParser/CIFParser.swift:142-163 | atom `i` is the atom of the `i`-th accepted row, and there are as many atoms as accepted rows |
| CifParser.AlignedChainsMatchAtoms | BioViewerPackages/CIFParser/Sources/CIFParser/CIFParser.swift:166-184 | corrected: chain id `i` is the chain of the row atom `i` comes from, one per atom |
| CifParser.AlignedResiduesMatchAtoms | BioViewerPackages/CIFParser/Sources/CIFParser/CIFParser.swift:186-199 | corrected: residue `i` is the residue of the row atom `i` comes from, one per atom |
| CifParser.ResiduesSkipWater | BioViewerPackages/CIFParser/Sources/CIFParser/CIFParser.swift:193-196 | no residue listed is water |
| CifParser.Positions | BioViewerPackages/CIFParser/Sources/CIFParser/CIFParser.swift:162 | the positions of the atoms, in order |
| CifParser.Elements | BioViewerPackages/CIFParser/Sources/CIFParser/CIFParser.swift:163 | the elements of the atoms, in order |
| CifParser.ModelShape | BioViewerPackages/CIFParser/Sources/CIFParser/CIFParser.swift:201-212 | one configuration without energies; the element composition counts one element per atom; optional lists present exactly when their columns are aligned |
| CifParser.ModelsFromLoops | BioViewerPackages/CIFParser/Sources/CIFParser/CIFParser.swift:124-214 | every model comes from a loop that gives one, every such loop's model is listed, and there are no more models than loops |
| CifParser.BuilderMeaning | BioViewerPackages/CIFParser/Sources/CIFParser/CIFParser.swift:125-139 | a loop gives a model exactly when it lists `group_PDB` and passes the guard, and the model is that of its columns |
| CifParser.ParsedData.constructor | BioViewerPackages/CIFParser/Sources/CIFParser/CIFParser.swift:14-16 | a new parse has no entry id |
| CifParser.LoopMetadata.constructor | BioViewerPackages/CIFParser/Sources/CIFParser/CIFParser.swift:23-27 | a new loop has the given names, no values and is not discarded |
| CifParser.Values | BioViewerPackages/CIFParser/Sources/CIFParser/CIFParser.swift:119 | the states of the loop objects, in order |
| CifParser.LastOnly | BioViewerPackages/CIFParser/Sources/CIFParser/CIFParser.swift:58 | the last loop object is one of the loop objects |
| CifParser.AppendRow | BioViewerPackages/CIFParser/Sources/CIFParser/CIFParser.swift:73-85 | the row loop leaves the values the row specification gives |
| CifParser.ReadLoopLine | BioViewerPackages/CIFParser/Sources/CIFParser/CIFParser.swift:59-86 | the last loop object's state after a line is the loop step of its state before |
| CifParser.ReadLastLoop | BioViewerPackages/CIFParser/Sources/CIFParser/CIFParser.swift:58-86 | reading a line changes the last loop object only, as the loop step says |
| CifParser.OpenLoop | BioViewerPackages/CIFParser/Sources/CIFParser/CIFParser.swift:54 | a fresh, empty loop object is appended, the others kept |
| CifParser.ReadEntryLine | BioViewerPackages/CIFParser/Sources/CIFParser/CIFParser.swift:87-93 | outside any loop only an entry-id line with a second token sets the entry id |
| CifParser.ParseLine | BioViewerPackages/CIFParser/Sources/CIFParser/CIFParser.swift:45-94 | the state after a line is the value-level step of the state before; only `loop_` adds a loop object |
| CifParser.ReadContentLine | BioViewerPackages/CIFParser/Sources/CIFParser/CIFParser.swift:58-93 | a line that is neither comment nor `loop_` follows the value-level step |
| CifParser.AtomsSkip | BioViewerPackages/CIFParser/Sources/CIFParser/CIFParser.swift:144-156 | a row that is not accepted adds no atom |
| CifParser.AtomsTake | BioViewerPackages/CIFParser/Sources/CIFParser/CIFParser.swift:157-163 | an accepted row appends its atom |
| CifParser.PartsSnoc | BioViewerPackages/CIFParser/Sources/CIFParser/CIFParser.swift:162-163 | positions and elements each grow by the new atom's part |
| CifParser.ReadAtoms | BioViewerPackages/CIFParser/Sources/CIFParser/CIFParser.swift:141-164 | the atom loop gives the positions and elements of the accepted rows, in order |
| CifParser.ReadChainIds | BioViewerPackages/CIFParser/Sources/CIFParser/CIFParser.swift:166-184 | chain ids present only when the subunit column is aligned, with water rows skipped |
| CifParser.ReadResidues | BioViewerPackages/CIFParser/Sources/CIFParser/CIFParser.swift:186-199 | residues present only when the residue column is aligned, with water rows skipped |
| CifParser.BuildModel | BioViewerPackages/CIFParser/Sources/CIFParser/CIFParser.swift:138-213 | one iteration of the model loop builds the specified model |
| CifParser.ReadLines | BioViewerPackages/CIFParser/Sources/CIFParser/CIFParser.swift:107-122 | the line loop leaves the state the value-level scan describes |
| CifParser.ReadLineAt | BioViewerPackages/CIFParser/Sources/CIFParser/CIFParser.swift:107-122 | one pass of the line loop: after line `i` the state is the value-level scan of the lines up to it; loop objects stay distinct and any new one is fresh |
| CifParser.BuildModels | BioViewerPackages/CIFParser/Sources/CIFParser/CIFParser.swift:124-214 | the model loop builds one model per atom loop passing the guard, in order |
| CifParser.ParseCif | BioViewerPackages/CIFParser/Sources/CIFParser/CIFParser.swift:98-229 | the file holds the models of the scanned loops, is a static structure with the given names and size, and takes the caller's PDB id or else the entry id |
| XyzLines.LineElements | BioViewerPackages/XYZParser/Sources/XYZParser/XYZParser.swift:45 | the tokens are non-empty and hold no blank |
| XyzLines.NormalizedLine | BioViewerPackages/XYZParser/Sources/XYZParser/XYZParser.swift:52 | the normalised line holds no whitespace or newline |
| XyzLines.EnergyText | BioViewerPackages/XYZParser/Sources/XYZParser/XYZParser.swift:52-58 | energy text exactly when the normalised line contains `energy=` |
| XyzLines.ElementOf | BioViewerPackages/XYZParser/Sources/XYZParser/XYZParser.swift:62-65 | as written, a known element other than chlorine only when the de-spaced token upper-cases to that element's symbol |
| XyzLines.EnergyTextMeaning | BioViewerPackages/XYZParser/Sources/XYZParser/XYZParser.swift:52-58 | energy text exactly when the normalised line contains `energy=`, and then what follows the first tag up to the next tag or the end |
| XyzLines.ReadLine | BioViewerPackages/XYZParser/Sources/XYZParser/XYZParser.swift:45-82 | short exactly below four tokens; an atom exactly when tokens 1 to 3 all parse, with x and y kept, z negated and the element read from token 0 |
| XyzLines.Infos | BioViewerPackages/XYZParser/Sources/XYZParser/XYZParser.swift:122-124 | one line information per line, in order |
| XyzLines.InfosSnoc | BioViewerPackages/XYZParser/Sources/XYZParser/XYZParser.swift:122-124 | one more line adds its information |
| XyzLines.AtomPositions | BioViewerPackages/XYZParser/Sources/XYZParser/XYZParser.swift:85 | no more positions than lines |
| XyzLines.AtomElementsOf | BioViewerPackages/XYZParser/Sources/XYZParser/XYZParser.swift:86 | one element per atom position |
| ParseXyz.BucketOf | BioViewer/Files/Import/Parsers/ParseXYZ.swift:116-129 | one of the six arrays: carbon, nitrogen, hydrogen, oxygen, sulfur, others |
| ParseXyz.FiledBuckets | BioViewer/Files/Import/Parsers/ParseXYZ.swift:116-129 | filing appends the atom to the array of its element and to no other |
| ParseXyz.FlattenIsFlattenFrom | BioViewer/Files/Import/Parsers/ParseXYZ.swift:144-149 | the six arrays in order are the arrays from the first on |
| ParseXyz.OneMoreFrom | BioViewer/Files/Import/Parsers/ParseXYZ.swift:144-149 | one more position in array `j` adds one occurrence to the concatenation of the arrays from `k` on exactly when `j >= k` |
| ParseXyz.FiledMultiset | BioViewer/Files/Import/Parsers/ParseXYZ.swift:116-129 | filing an atom adds exactly one occurrence of it to the arrays |
| ParseXyz.LineStep | BioViewer/Files/Import/Parsers/ParseXYZ.swift:71-131 | the configurations stay a non-empty list after a line |
| ParseXyz.ScanFrom | BioViewer/Files/Import/Parsers/ParseXYZ.swift:71-131 | the configurations stay non-empty over any lines |
| ParseXyz.Scan | BioViewer/Files/Import/Parsers/ParseXYZ.swift:44-131 | the configurations after the file are never empty |
| ParseXyz.ScanFromSnoc | BioViewer/Files/Import/Parsers/ParseXYZ.swift:71 | one more line is one more step |
| ParseXyz.Regrouped | BioViewer/Files/Import/Parsers/ParseXYZ.swift:116-129 | each array holds the positions of its elements' atom lines, in line order |
| ParseXyz.RegroupedSnoc | BioViewer/Files/Import/Parsers/ParseXYZ.swift:116-129 | one more atom line files its position into its element's array |
| ParseXyz.LineStepKeepsSingle | BioViewer/Files/Import/Parsers/ParseXYZ.swift:76-130 | a line keeps one configuration: an atom line files its atom and element, a long line sets any energy, nothing else changes |
| ParseXyz.SingleNeverSplits | BioViewer/Files/Import/Parsers/ParseXYZ.swift:46-52 | with `atomArrayComposition` never updated, `createNewConfigurationUnlessEmpty` never opens a second configuration |
| ParseXyz.SingleWithEnergy | BioViewer/Files/Import/Parsers/ParseXYZ.swift:84-89 | the energy branch sets the single configuration's energy only |
| ParseXyz.ScanIsSingle | BioViewer/Files/Import/Parsers/ParseXYZ.swift:44-131 | any file ends with one configuration holding every atom line's element in order, the regrouped positions and the last energy |
| ParseXyz.RegroupedPermutation | BioViewer/Files/Import/Parsers/ParseXYZ.swift:116-149 | the filed arrays hold the atom lines' positions, each as often as it occurs |
| ParseXyz.SingleContents | BioViewer/Files/Import/Parsers/ParseXYZ.swift:143-157 | the atoms of one configuration are its six arrays in order, its energy the only one listed |
| ParseXyz.AtomsArePermutation | BioViewer/Files/Import/Parsers/ParseXYZ.swift:71-149 | the returned atoms are a permutation of the atom lines' positions |
| ParseXyz.AsWrittenMergesBlocks | BioViewer/Files/Import/Parsers/ParseXYZ.swift:46-52 | two blocks of atom lines make one configuration here but two in the package reader |
| ParseXyz.CreateUnlessEmpty | BioViewer/Files/Import/Parsers/ParseXYZ.swift:46-52 | as written: the configurations are kept, and one empty configuration numbered by the count is appended exactly when the last one's composition total is non-zero |
| ParseXyz.AtomsGroupedByElement | BioViewer/Files/Import/Parsers/ParseXYZ.swift:116-163 | the atoms come grouped C, N, H, O, S, others while the element list keeps line order |
| ParseXyz.AsWrittenMisalignsElements | BioViewer/Files/Import/Parsers/ParseXYZ.swift:116-163 | as written, an oxygen line and then a carbon line give the atoms carbon first and the elements oxygen first; the grouped element list starts with carbon |
| ParseXyz.GroupedElementsAlign | BioViewer/Files/Import/Parsers/ParseXYZ.swift:116-163 | corrected: with the element list grouped like the atoms, atom `i` and element `i` come from one and the same atom line, for every `i` |
| ParseXyz.AssembledMeaning | BioViewer/Files/Import/Parsers/ParseXYZ.swift:133-192 | `emptyAtomCount` exactly without atom lines; otherwise one static protein, atoms a permutation of the atom lines, elements in line order, the last energy, one subunit of atom count 0 |
| ParseXyz.ParsedConfiguration.constructor | BioViewer/Files/Import/Parsers/ParseXYZ.swift:30-32 | a new configuration with its id and nothing else |
| ParseXyz.ParsedConfiguration.SetEnergy | BioViewer/Files/Import/Parsers/ParseXYZ.swift:87 | only the energy changes |
| ParseXyz.ParsedConfiguration.FileAtom | BioViewer/Files/Import/Parsers/ParseXYZ.swift:116-130 | the atom goes to its element's array and the element is appended |
| ParseXyz.Values | BioViewer/Files/Import/Parsers/ParseXYZ.swift:44 | the states of the configuration objects, in order |
| ParseXyz.LastOnly | BioViewer/Files/Import/Parsers/ParseXYZ.swift:87 | the last configuration object is one of them |
| ParseXyz.AllAtomsTake | BioViewer/Files/Import/Parsers/ParseXYZ.swift:143-157 | one more configuration adds its six arrays and its energy, if any |
| ParseXyz.ValuesSnoc | BioViewer/Files/Import/Parsers/ParseXYZ.swift:51 | one more object adds its state |
| ParseXyz.CreateNewConfigurationUnlessEmpty | BioViewer/Files/Import/Parsers/ParseXYZ.swift:46-52 | the objects step as the value-level request says, earlier objects kept, new ones fresh |
| ParseXyz.RecordEnergy | BioViewer/Files/Import/Parsers/ParseXYZ.swift:84-89 | the configurations step as the value-level energy branch says |
| ParseXyz.ParseLine | BioViewer/Files/Import/Parsers/ParseXYZ.swift:71-131 | the closure steps the configuration objects as the value-level step of the line's information |
| ParseXyz.ApplyLine | BioViewer/Files/Import/Parsers/ParseXYZ.swift:76-130 | the branches of the closure follow the value-level step |
| ParseXyz.FileIntoLast | BioViewer/Files/Import/Parsers/ParseXYZ.swift:116-130 | the last configuration receives the atom and its element |
| ParseXyz.ParseLines | BioViewer/Files/Import/Parsers/ParseXYZ.swift:71-131 | after every line the objects are in the state of the value-level scan |
| ParseXyz.ConcatenateConfigurations | BioViewer/Files/Import/Parsers/ParseXYZ.swift:143-157 | every configuration's six arrays appended in order, and the present energies collected |
| ParseXyz.ParseXyzFile | BioViewer/Files/Import/Parsers/ParseXYZ.swift:36-193 | the file assembled from the scan of the lines |
| ParseXyz.AssembleFile | BioViewer/Files/Import/Parsers/ParseXYZ.swift:133-192 | the file assembled from the configurations |
| XyzParser.ReplaceLast | BioViewerPackages/XYZParser/Sources/XYZParser/XYZParser.swift:85-86 | only the last element replaced |
| XyzParser.LineStep | BioViewerPackages/XYZParser/Sources/XYZParser/XYZParser.swift:39-87 | the configurations stay non-empty after a line |
| XyzParser.ScanFrom | BioViewerPackages/XYZParser/Sources/XYZParser/XYZParser.swift:122-124 | the configurations stay non-empty over any lines |
| XyzParser.Scan | BioViewerPackages/XYZParser/Sources/XYZParser/XYZParser.swift:101-124 | the configurations after the reset and the file are never empty |
| XyzParser.ScanFromSnoc | BioViewerPackages/XYZParser/Sources/XYZParser/XYZParser.swift:122-124 | one more line is one more step |
| XyzParser.CreateUnlessEmptyMeaning | BioViewerPackages/XYZParser/Sources/XYZParser/XYZParser.swift:29-35 | a configuration numbered by the current count is appended exactly when the last one has an element; otherwise nothing changes |
| XyzParser.CreateUnlessEmpty | BioViewerPackages/XYZParser/Sources/XYZParser/XYZParser.swift:29-35 | the configurations are kept, and one empty configuration numbered by the count is appended exactly when the last one has an element |
| XyzParser.WithEnergyKeepsAtoms | BioViewerPackages/XYZParser/Sources/XYZParser/XYZParser.swift:52-58 | recording an energy changes only the last configuration's energy |
| XyzParser.AllAtomsReplaceLast | BioViewerPackages/XYZParser/Sources/XYZParser/XYZParser.swift:85 | appending an atom to the last configuration extends the atom list by it |
| XyzParser.AppendEmptyKeepsWellFormed | BioViewerPackages/XYZParser/Sources/XYZParser/XYZParser.swift:34 | an appended empty configuration keeps the list well formed and adds no atom |
| XyzParser.CreateKeepsWellFormed | BioViewerPackages/XYZParser/Sources/XYZParser/XYZParser.swift:29-35 | a request for a new configuration keeps the list well formed and adds no atom |
| XyzParser.AppendAtomKeepsWellFormed | BioViewerPackages/XYZParser/Sources/XYZParser/XYZParser.swift:85-86 | an appended atom keeps the list well formed and extends the atom list by its position |
| XyzParser.LineStepKeepsWellFormed | BioViewerPackages/XYZParser/Sources/XYZParser/XYZParser.swift:39-87 | every line keeps the list well formed, and the atoms grow exactly by the line's atom |
| XyzParser.ScanShape | BioViewerPackages/XYZParser/Sources/XYZParser/XYZParser.swift:101-124 | the atoms, in configuration order, are the atom lines' positions in line order |
| XyzParser.LineStepOpensAtBlockEnd | BioViewerPackages/XYZParser/Sources/XYZParser/XYZParser.swift:45-87 | after an atom line the last configuration holds atoms; after any other it is empty, a new one opened exactly when the last had atoms |
| XyzParser.ScanCountsBlocks | BioViewerPackages/XYZParser/Sources/XYZParser/XYZParser.swift:101-124 | one configuration plus one per end of a block of atom lines; the last holds atoms exactly when the file ends with an atom line |
| XyzParser.EnergiesArePresent | BioViewerPackages/XYZParser/Sources/XYZParser/XYZParser.swift:136-145 | the energy list is nil exactly when no configuration has an energy, and else lists the present energies in order |
| XyzParser.PresentEnergiesMembers | BioViewerPackages/XYZParser/Sources/XYZParser/XYZParser.swift:139-144 | every present energy is listed, and there are no more energies than configurations |
| XyzParser.AssembledMeaning | BioViewerPackages/XYZParser/Sources/XYZParser/XYZParser.swift:126-189 | `emptyAtomCount` exactly without atom lines; otherwise one protein with the atom lines' positions, the first configuration's elements, the present energies, dynamic exactly with more than one configuration |
| XyzParser.XyzParsedConfiguration.constructor | BioViewerPackages/XYZParser/Sources/XYZParser/XYZParser.swift:16 | a new configuration with its id and nothing else |
| XyzParser.XyzParsedConfiguration.SetEnergy | BioViewerPackages/XYZParser/Sources/XYZParser/XYZParser.swift:56 | only the energy changes |
| XyzParser.XyzParsedConfiguration.Append | BioViewerPackages/XYZParser/Sources/XYZParser/XYZParser.swift:85-86 | position and element appended |
| XyzParser.Values | BioViewerPackages/XYZParser/Sources/XYZParser/XYZParser.swift:16 | the states of the configuration objects, in order |
| XyzParser.LastOnly | BioViewerPackages/XYZParser/Sources/XYZParser/XYZParser.swift:56 | the last configuration object is one of them |
| XyzParser.ValuesSnoc | BioViewerPackages/XYZParser/Sources/XYZParser/XYZParser.swift:34 | one more object adds its state |
| XyzParser.XyzParser.constructor | BioViewerPackages/XYZParser/Sources/XYZParser/XYZParser.swift:10-18 | line 0 of 1, one empty configuration numbered 0 |
| XyzParser.XyzParser.ResetParser | BioViewerPackages/XYZParser/Sources/XYZParser/XYZParser.swift:21-25 | line 0 of 1, one fresh empty configuration numbered 0 |
| XyzParser.XyzParser.CreateNewConfigurationUnlessEmpty | BioViewerPackages/XYZParser/Sources/XYZParser/XYZParser.swift:29-35 | the objects step as the value-level request says |
| XyzParser.XyzParser.RecordEnergy | BioViewerPackages/XYZParser/Sources/XYZParser/XYZParser.swift:51-58 | the configurations step as the value-level energy branch says |
| XyzParser.XyzParser.SetLastEnergy | BioViewerPackages/XYZParser/Sources/XYZParser/XYZParser.swift:56 | only the last configuration's energy changes |
| XyzParser.XyzParser.AppendAtom | BioViewerPackages/XYZParser/Sources/XYZParser/XYZParser.swift:85-86 | the atom and its element go to the last configuration |
| XyzParser.XyzParser.ParseLine | BioViewerPackages/XYZParser/Sources/XYZParser/XYZParser.swift:39-87 | one more line counted, and the configurations step as the value-level step of the line's information |
| XyzParser.XyzParser.ApplyLine | BioViewerPackages/XYZParser/Sources/XYZParser/XYZParser.swift:45-86 | the branches follow the value-level step |
| XyzParser.XyzParser.ParseLines | BioViewerPackages/XYZParser/Sources/XYZParser/XYZParser.swift:122-124 | every line parsed in order, as the value-level scan says |
| XyzParser.XyzParser.ParseXyz | BioViewerPackages/XYZParser/Sources/XYZParser/XYZParser.swift:91-190 | reset; `totalLineCount` is the number of '\n' characters of the raw text and `currentLine` the number of lines read; every line read, and the file assembled from the scan |
| XyzParser.NewlineCount | BioViewerPackages/XYZParser/Sources/XYZParser/XYZParser.swift:103-107 | the `reduce` over the text counts exactly the occurrences of '\n', at most its length |
| XyzParser.ConcatenateConfigurations | BioViewerPackages/XYZParser/Sources/XYZParser/XYZParser.swift:136-145 | every configuration's atoms concatenated and the present energies collected |
| XyzParser.Collect | BioViewerPackages/XYZParser/Sources/XYZParser/XYZParser.swift:126-189 | the file assembled from the configurations |
| ProteinMath.AtomInBox | BioViewer/ProteinMath.swift:63-94 | every atom lies inside the bounding box of the atoms |
| ProteinMath.SphereOfBoxEncloses | BioViewer/ProteinMath.swift:41-52 | the sphere around the box middle with half the diagonal plus the margin holds every point of the box with the margin to spare |
| FpsCounter.FpsCounterViewModel.constructor | BioViewer/Views/UtilityViews/FPSCounterView.swift:17-18 | an empty buffer at index 0, which keeps the ring relation |
| StatusViewModels.StatusViewModel.constructor | BioViewer/Views/StatusView/StatusViewModel.swift:19-45 | nothing shown, running or failed |
| StatusViewModels.StatusViewModel.IsBlockingUI | BioViewer/Views/StatusView/StatusViewModel.swift:24-31 | `isBlockingUI` holds exactly when `isImportingFile` does |
| StatusViewModels.StatusViewModel.IsImportingFile | BioViewer/Views/StatusView/StatusViewModel.swift:32-39 | true exactly when some shown running or failed action imports a file |
| SceneAnimators.SceneAnimator.constructor | BioViewer/Metal/Renderer/Scene/SceneAnimator.swift:40-57 | no animation running, not busy, the display link running, and the renderer values as given |

## Left out

- Rendering on the GPU is not modelled: Metal buffers, textures, encoders, kernels and passes, display links and render threads. Metal objects appear only as values handed out by parameter functions.
- Concurrency is not modelled. Actors run sequentially. Work sent to `DispatchQueue.main` and `Task` bodies runs at once. A display-link tick is an explicit `Sync` or update call.
- PdbParser.ParsePdbFile: the `TaskGroup` block tasks are modelled as running one after another, merged in block order. `PdbParser.AtomsInMergeOrder` shows that each subunit's atoms, as a multiset, do not depend on that order. The sorts of the TER and ENDMDL lists are the identity, because `PdbParser.ScanIsMeaningful` proves the lists are already increasing.
- Floating-point numerics are not modelled: rounding, NaN, and the width of `Float` and `Double`. A NaN result (the centroid or sphere of no atoms) is `None`. Matrices, rotations, projections and camera trigonometry are opaque.
- ProteinMath.ComputeBoundingSphere: with no atoms it returns no sphere. The source computes a sphere from the infinite bounds of an empty box, and its centre is NaN.
- Text-to-number parsing, UTF-8 decoding, colour conversion, `String(format:)` formatting and `sqrt` are parameters, not models. `ProteinMath.SphereEnclosesAtoms` assumes the parameter is a square root.
- The FPS label is left out: `FpsCounter` keeps the average frame time, not the formatted `averageFPSString`.
- Random subunit colours are the parameter `draws`. The clock (`CACurrentMediaTime()`) is the parameter `now`.
- The shader-header constants are not part of this model. These are `ATOM_TYPE_COUNT` = 64, the colour-table capacities and the 64 `AtomType` codes; the model assumes those values. The same holds for the mmCIF package's `CategoryNames`: `CifParser.CategoriesToSave` and the `_atom_site` tag constants beside it are assumed to be the mmCIF tag names the reader looks up, since that file is not part of this model. `AppState.maxNumberOfWarnings` and the initial `PhotoModeConfig` texture sizes are constructor parameters.
- Integer width is not modelled: Swift `Int`, `UInt8` and `UInt16` are unbounded here. Overflow of the scene's `frame` counter is left out. `AtomElements.FromIndex` requires 0..255, because `UInt8(index)` traps outside that range.
- DynamicUti.DecodeDynamicUti: requires at least five characters, as `DynamicUti.Decode` does, because `suffix(from:)` with index 5 traps on a shorter string.
- FileSource.FileSourceViewModel.LoadMore: requires a full next batch, because the source slices the line list without clamping and traps past its end.
- ParsePdb.ParsePdbLike: under an unknown PDB id it requires every HEADER line to reach the end of the id code. A shorter HEADER line makes the source's slice trap.
- LegacyPdb.LegacyPdbParser.ParsePdb: the same requirement on HEADER lines under an unknown PDB id, for the same trap.
- SceneAnimators.Progress: requires a positive duration, as do `SceneAnimators.GetAnimationProgress` and the animation starts, so it is weaker than the source. With a zero duration the source divides by zero, and the clamp then sees an infinity or NaN.
- The source's `PDBConstants.pdbIdStart`/`resIdStart` spelling differs from the app enum's `pdbIDStart`/`resIDStart`. Both names are read as the app enum's constants.
- Progress reporting is left out: `statusProgress`, `updateProgress` from the readers, and the connectivity progress. Logging is left out too.
- The readers' `sourceLines` (the caller's, or the raw text split at newlines) is not part of the file info they return. The source-line view takes the lines as its input.
- Interface behaviour is left out: haptic feedback, the photo-mode shutter animation, fonts and baseline offsets of the unit label, and view layout.
- CompositionChart: the segment colour is left out, and `CompositionItem` equality is structural.
- MetalFunctions: `MTLFunctionConstantValues` is compared by value.
- MetalScenes.MetalScene.UpdateScene: the step of the configuration selector while playing (`nextConfiguration()`) is left out; the selector's state is not part of this model.
- File, URL, network and user-defaults I/O is left out.
- CifParser.ParseCif: the raw text is split at every '\n' code point. Swift's `split(separator: "\n")` works on grapheme clusters, and "\r\n" is one Character there, so a CRLF file differs: the source sees a single line, here each '\n' ends a line and the lines keep their trailing '\r'. Only LF line ends are modelled. Grapheme clusters are not modelled anywhere.
- PdbParser.ParsePdbFile: the same split at every '\n' code point; only LF line ends are modelled.
- LegacyPdb.LegacyPdbParser.ParsePdb: the same split at every '\n' code point; only LF line ends are modelled.
- ParseXyz.ParseXyzFile: the source splits `rawText` with Foundation's `enumerateLines`, which ends a line at "\n", "\r", "\r\n", U+2028 and U+2029 and gives no empty line after a final line end. That split is not modelled: the reader takes the caller's `lines`, and nothing here ties them to the raw text.
- XyzParser.XyzParser.ParseXyz: the same `enumerateLines` split is the caller's `lines`. `totalLineCount` is `NewlineCount(rawText)`, the number of '\n' code points, and `currentLine` ends at `|lines|`. The model does not relate the two counts. Swift's `reduce` compares Characters, so "\r\n" is not counted there, and a CRLF or CR file gets a different total.
- ParsePdb.ParsePdbLike: the `enumerateLines` split is the caller's `lines`, not modelled. The line numbers in warnings count those lines.
- ImportFiles.ParsePdbOriginal: the `enumerateLines` split is the caller's `lines`, not modelled.
- Text.Uppercased: maps ASCII letters only. Swift's `uppercased()` uses full Unicode case mapping, which changes other letters and can change the length ("ß" becomes "SS"). The element symbols it is applied to are ASCII.
- Text.Lowercased: maps ASCII letters only, where Swift's `lowercased()` uses full Unicode case mapping.
- `Residue(string:)` is not part of this model (PDBParser.swift:258, CIFParser.swift:196). `PdbParser.AtomRecord`, `PdbParser.ModelProtein` and `CifParser.CifModel` carry the trimmed residue-name strings instead of `Residue` cases; the water test on those strings is modelled.
- CifParser.ParseCif: the `chainComposition` and `residueComposition` that the reader passes to `Protein(...)` (CIFParser.swift:207, 209) are not in `CifParser.CifModel`; only the chain ids and residues they are counted from are.
- SceneAnimators.SceneAnimator.UpdateColorAnimation: the source's `renderer` is a `weak var` (SceneAnimator.swift:40), and `guard let renderer else { return }` leaves a colour animation running once the renderer is gone. The model always has a renderer, so that path is not modelled.
- Proteins.Make: the `boundingVolume` that `Protein.init` computes from the atoms is not stored. `computeBoundingVolume` is not part of this model; the bounding box and sphere themselves are modelled in `ProteinMath`.

## Findings

| source | as written | input that shows it | evidently intended | confidence | as-written member | corrected member |
|---|---|---|---|---|---|---|
| BioViewerPackages/BioViewerFoundation/Sources/BioViewerFoundation/Types/AtomElement.swift:120-139 | `init(string:)` compares the upper-cased string with `"Cl"` | `"Cl"` or `"CL"` gives `unknown` | chlorine's symbol reads as chlorine, in either case | not executed | AtomElements.AsWrittenNeverChlorine | AtomElements.FromStringReadsName |
| BioViewer/Files/Import/Parsers/ParseXYZ.swift:46-52 | the empty test reads `atomArrayComposition.totalCount`, which the line closure never updates | two blocks of atom lines separated by a blank line give one configuration | a new configuration at the end of each block of atom lines, as the package reader does by testing `atomElements.count` | not executed | ParseXyz.AsWrittenMergesBlocks | XyzParser.ScanCountsBlocks |
| BioViewer/Views/ProteinViews/Sidebar/Segments/FileSegmentProtein/FileRow.swift:37-38 | the GB branch divides by 1024 twice | 1073741824 bytes show as 1024 GB | divide by 1024 three times, giving 1 GB | not executed | FileRow.OneGigabyteShownAs1024 | FileRow.LabelMeansSize |
| BioViewer/Files/Import/Parsers/ParseXYZ.swift:116-163 | the atoms of a configuration are appended to per-element arrays and laid out C, N, H, O, S, others, while `atomElements` is appended in line order | an oxygen atom line followed by a carbon atom line: atom 0 is the carbon, element 0 is oxygen | element `i` describes atom `i`, so the element list is laid out like the atoms | not executed | ParseXyz.AsWrittenMisalignsElements | ParseXyz.GroupedElementsAlign |
| BioViewerPackages/CIFParser/Sources/CIFParser/CIFParser.swift:143-199 | the atom loop skips rows whose coordinates do not parse, while the chain and residue loops skip only water rows | a non-water row whose x value does not parse, with aligned subunit and residue columns: one more chain id and one more residue than atoms | one chain id and one residue per atom, taken from the atom's own row | not executed | CifParser.AsWrittenColumnsRunAhead | CifParser.AlignedChainsMatchAtoms |
| BioViewer/Metal/MTLCompiledFunction.swift:31-50 | `compile` never assigns `functionParameters` | a successful compile with constants `k` leaves `requiresCompilation(k)` true | the constants compiled for are recorded | not executed | CompiledFunctions.CompiledWithConstantsStillRequiresCompilation | CompiledFunctions.CompiledWithConstantsIsUpToDate |
