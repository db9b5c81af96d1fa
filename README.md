# molgif in Dafny

molgif renders a molecule, read from an XYZ file, as a ray-traced GIF
animation that spins the molecule about one or more axes, or as a single PNG
frame. This project models both revisions of the program:

- the later one, `molgif.go`: bonds are stored with the molecule, and
  hydrogen pairs are skipped. When the bond size exceeds 0.001, every bond
  is drawn as two half cylinders; there is a banner overlay, and the animation spins about a combination of
  the x, y and z axes;
- the earlier one, `main.go`: bonds are recomputed whenever the geometry is
  built, self-pairs and hydrogen pairs included. Its cylinders are
  placeholders that never intersect a ray, and every animation frame turns
  about the y axis only.

Modules:

| module | what it holds |
|---|---|
| `Kernel` | vectors and 3x3 matrices: the arithmetic, the rotation matrices, the skew matrix |
| `Atoms` | atoms and bonds, shared by both revisions: the bond scan, centring, turning by a matrix |
| `Raster` | pixels, the 64x64 tile schedule, `draw.Draw` of a tile into a frame, the banner mask |
| `Tracing` | the camera, the probe ray of a pixel, the hit record, the camera distance |
| `MolgifMolecule`, `MolgifScene`, `MolgifMain` | the later revision |
| `EarlyMolecule`, `EarlyScene`, `EarlyMain` | the earlier revision |
| `Wrappers` | `Option` and `Result` |

Each `Molecule` and `Scene` is a class whose fields the methods update in
place, as in the source. Each method is proved against a specification
function on sequences:

- `BondList` for the bond scan;
- `Centered` for `MoveToOrigin`;
- `Turned` and `TurnedN` for `Rotate`;
- `Geometry` and `Layout` for the shape lists;
- `TracedPixel`, `FramePixel` and `Pixel` for the ray tracer.

Lemmas then prove what those functions promise.

What the program gets from outside becomes parameters:

- the atoms parsed from the input file;
- `Vec.Len` (`length`);
- `math.Sincos` and `math.Sqrt` (`trig`);
- the analytic sphere and cylinder intersections and the light's cosine (`tr`, a `Tracer`);
- the order in which the rendering goroutines return tiles (`arrivals`, or `arrival(i)` for frame i).

A tile order may be any sequence that holds exactly the scheduled tiles. The
frame-level contracts hold for every such order.

## Model

| member | source | states |
|---|---|---|
| Kernel.VecAdd | molgif.go:152-155 | subtracting the second operand from the sum gives back the first |
| Kernel.VecSub | molgif.go:157-160 | the difference is the origin exactly when the operands are equal; adding the subtrahend back restores the minuend |
| Kernel.VecScale | molgif.go:174-177 | scaling by 1 leaves a vector unchanged; scaling by 0 gives the origin |
| Kernel.VecCross | molgif.go:166-172 | the cross product is orthogonal to both operands |
| Kernel.LenSq | molgif.go:144-146 | a squared length is never negative and is 0 at the origin |
| Kernel.LenSqSubSymmetric | molgif.go:389-391 | the distance test gives the same answer for (a, b) and (b, a) |
| Kernel.MatIdent | molgif.go:30-36 | the identity matrix maps every vector to itself |
| Kernel.MatMat | molgif.go:46-58 | the product matrix applies the right factor first, then the left one, to every vector |
| Kernel.MatRotX | molgif.go:84-93 | a rotation about x keeps every x coordinate; angle 0 (sin 0, cos 1) gives the identity |
| Kernel.MatRotY | molgif.go:95-104 | a rotation about y keeps every y coordinate; angle 0 gives the identity |
| Kernel.MatRotZ | molgif.go:106-115 | a rotation about z keeps every z coordinate; angle 0 gives the identity |
| Kernel.MatSkew | molgif.go:117-125 | the skew matrix of v multiplies a vector as the cross product v x w does |
| Kernel.RotYRoundTrip | molgif.go:95-104 | when sin and cos lie on the unit circle, turning by -angle undoes turning by angle |
| Kernel.RotYKeepsLength | molgif.go:95-104 | when sin and cos lie on the unit circle, a y rotation keeps every vector's length |
| Kernel.RotXRoundTrip | molgif.go:84-93 | when sin and cos lie on the unit circle, turning about x by -angle undoes turning by angle |
| Kernel.RotXKeepsLength | molgif.go:84-93 | when sin and cos lie on the unit circle, an x rotation keeps every vector's length |
| Kernel.RotZRoundTrip | molgif.go:106-115 | when sin and cos lie on the unit circle, turning about z by -angle undoes turning by angle |
| Kernel.RotZKeepsLength | molgif.go:106-115 | when sin and cos lie on the unit circle, a z rotation keeps every vector's length |
| Kernel.RotZYXKeepsLength | molgif.go:605-608 | the z, then y, then x rotations together keep every vector's length |
| Kernel.MatVecSub | molgif.go:38-44 | a matrix maps the difference of two points to the difference of their images |
| Atoms.BondListMembers | molgif.go:381-397 | (a, b) is a bond iff both indices are atoms, the pair is closer than 1.6, and it is not a hydrogen pair when hydrogen pairs are skipped |
| Atoms.BondListInRange | molgif.go:381-397 | every bond refers to two atoms of the molecule |
| Atoms.BondListSymmetric | molgif.go:381-397 | (a, b) is a bond iff (b, a) is |
| Atoms.BondListSelf | molgif.go:386-391 | an atom is bonded to itself unless hydrogen pairs are skipped and it is hydrogen |
| Atoms.BondListOrdered | molgif.go:383-396 | bonds come in strict row-major order, so no pair appears twice |
| Atoms.PairScanSound | molgif.go:383-396 | every pair the nested scan emits is in range and passes the rule |
| Atoms.PairScanComplete | molgif.go:383-396 | every in-range pair that passes the rule is emitted |
| Atoms.Shifted | molgif.go:375-378 | a shift keeps the count, the names and every pairwise difference of positions |
| Atoms.SumShifted | molgif.go:370-379 | shifting n atoms by c lowers the sum of their positions by n times c |
| Atoms.CenteredSumsToOrigin | molgif.go:370-379 | after MoveToOrigin the positions sum to the origin |
| Atoms.CenteredIdempotent | molgif.go:370-379 | centring an already centred molecule changes nothing |
| Atoms.BondListShiftInvariant | molgif.go:454-455 | a shift leaves the bond list unchanged, so bonding before centring is the same as bonding after it |
| Atoms.Turned | molgif.go:399-403 | turning keeps the number of atoms and every name |
| Atoms.TurnedCompose | molgif.go:399-403 | turning by m1 and then by m2 is one turn by the product m2*m1 |
| Atoms.TurnedIdent | molgif.go:399-403 | turning by the identity leaves the atoms unchanged |
| Atoms.TurnedNAboutY | main.go:247-252 | any number of y rotations keeps every atom's name and y coordinate |
| Atoms.TurnedN | molgif.go:611-616 | any number of turns keeps the number of atoms and every name |
| Atoms.TurnedBack | molgif.go:399-403 | turning by a matrix and then by one that undoes it on every vector restores the atoms exactly |
| Atoms.TurnedKeepsBonds | molgif.go:381-403 | a turn that keeps lengths keeps the bond list: the bonds of the turned atoms are those computed before |
| Atoms.TurnedNKeepsDistance | molgif.go:399-403 | any number of length-keeping turns keeps the distance between every two atoms |
| Atoms.TurnedNKeepsBonds | molgif.go:381-403 | any number of length-keeping turns keeps the bond list |
| MolgifMolecule.ColourOpaque | molgif.go:409 | a symbol is painted opaque exactly when the table knows it; an unknown symbol would get Go's zero colour, transparent black, but NewMolecule rejects such symbols before anything is drawn |
| MolgifMolecule.Molecule.constructor | molgif.go:432-446 | the molecule starts with the parsed atoms and no bonds |
| MolgifMolecule.Molecule.MakeBonds | molgif.go:381-397 | the stored bonds become exactly the bond list with hydrogen pairs skipped; the atoms are unchanged |
| MolgifMolecule.Molecule.MoveToOrigin | molgif.go:370-379 | the atoms become their centred copy; the bonds are unchanged and keep referring to valid atoms |
| MolgifMolecule.Molecule.Rotate | molgif.go:399-403 | every atom is turned by the matrix; the bonds are unchanged |
| MolgifMolecule.FirstUnknownIsFirst | molgif.go:436-446 | no symbol is reported iff every symbol is known; a reported symbol is the first unknown one |
| MolgifMolecule.LoadCheckAccepts | molgif.go:436-453 | loading succeeds iff there is an atom and every symbol is known; "no atoms" is reported iff the file has none |
| MolgifMolecule.NewMolecule | molgif.go:426-457 | fails exactly with the load check's error; on success the molecule holds the centred atoms and the hydrogen-skipping bonds of the parsed atoms |
| MolgifScene.HalvesMeet | molgif.go:413-421 | both half cylinders of a bond end at the same midpoint, which does not depend on the bond's direction |
| MolgifScene.HalfBondsAt | molgif.go:412-422 | there are two half cylinders per bond, in bond order |
| MolgifScene.GeometryLayout | molgif.go:405-424 | one sphere per atom in atom order with its element colour; when the bond size exceeds 0.001, two half cylinders per bond, from each end to the midpoint in that end's colour; otherwise none |
| MolgifScene.Factor | molgif.go:524-531 | the light factor lies in [0.2, 1]: 0.2 when the surface faces away from the light, cosine+0.2 up to 1, and 1 from cosine 0.8 on |
| MolgifScene.Channel | molgif.go:533-535 | a shaded channel never exceeds the material's channel, and equals it at full light |
| MolgifScene.Shade | molgif.go:532-535 | shading keeps alpha and darkens no channel beyond the material's; from cosine 0.8 on it is the material colour |
| MolgifScene.ScanResult | molgif.go:510-539 | a pixel no shape hits has the background colour; otherwise it has the shaded colour of the unique nearest hit |
| MolgifScene.WinnerUnique | molgif.go:519-520 | at most one shape is the nearest hit of a ray |
| MolgifScene.Scene.constructor | molgif.go:494-508 | the camera stands 8 beyond the atom farthest from the origin; the light is at (1000, 500, -1000); every other field has Go's zero value |
| MolgifScene.Scene.UpdateGeometry | molgif.go:405-424 | the scene's shapes become the molecule's current geometry |
| MolgifScene.Scene.ComputePixel | molgif.go:510-539 | the pixel is the traced colour of that pixel's ray |
| MolgifScene.Scene.RenderTile | molgif.go:541-549 | a fresh tile of the rectangle's size whose every pixel is the traced colour at its frame position |
| MolgifScene.Scene.Render | molgif.go:551-588 | for any order in which the tiles come back, every pixel of the fresh frame is its traced colour, or banner grey where the banner is on and the mask has a dot |
| MolgifScene.IdentNeutral | molgif.go:605-608 | the identity is neutral for the matrix product that starts the spin |
| MolgifScene.SpinAboutY | molgif.go:605-608 | with no x or z component the composed spin matrix is a plain y rotation |
| MolgifScene.SpinKeepsY | molgif.go:597-622 | a spin about y alone keeps every atom's y coordinate in every frame |
| MolgifScene.SpinApplies | molgif.go:605-608 | the composed spin applies the z rotation first, then y, then x |
| MolgifScene.SpinKeepsLength | molgif.go:605-608 | with each axis's sine and cosine on the unit circle, the spin keeps every vector's length |
| MolgifScene.SpinKeepsBonds | molgif.go:597-622 | when sine and cosine satisfy the Pythagorean identity, the bonds stored before the animation are the bond list of every frame's atoms |
| MolgifScene.RenderFrame | molgif.go:610-615 | one loop step: the frame shows the current shapes, then the atoms turn and the shapes are rebuilt from them |
| MolgifScene.Advance | molgif.go:614-615 | Rotate then UpdateGeometry: the atoms are turned and the shapes match them again |
| MolgifScene.RenderAll | molgif.go:597-622 | loopTime*50 frames, each with delay 2; frame i shows the geometry of the molecule turned i times by the spin matrix |
| MolgifScene.FilmAt | molgif.go:610-615 | frame k of the film is the geometry of the atoms turned k times |
| MolgifScene.SpinMatrix | molgif.go:599-608 | the per-frame matrix is Rx*Ry*Rz through the angle 2*pi/nframes/sqrt(sum of abs(rotvec)) |
| MolgifScene.Animate | molgif.go:609-621 | nframes frames, each the picture of the atoms turned once more than in the previous frame |
| Raster.TileCount | molgif.go:556-557 | the tile count is the ceiling of size/64: enough tiles to cover the size, and not one more |
| Raster.Tile | molgif.go:571-577 | a tile is a 64x64 rectangle at non-negative coordinates |
| Raster.TilesMembers | molgif.go:571-577 | the schedule holds exactly the tiles (i, j) with i < ntilx and j < ntily |
| Raster.TilesLength | molgif.go:571-577 | the schedule holds ntilx*ntily tiles |
| Raster.TilesOrdered | molgif.go:571-577 | tiles are sent column by column, top to bottom, with no repeats |
| Raster.TileOwner | molgif.go:571-577 | a pixel lies in tile (i, j) iff i and j are its coordinates divided by 64 |
| Raster.TilesDisjoint | molgif.go:571-577 | two tiles sharing a pixel are the same tile |
| Raster.ScheduleCovers | molgif.go:556-577 | every pixel of the frame lies in exactly one scheduled tile |
| Raster.ArrivalsCover | molgif.go:579-583 | whatever order the tiles come back in, every frame pixel is drawn |
| Raster.Draw | molgif.go:581-583 | inside the tile's rectangle the frame takes the tile's pixels; everywhere else it is unchanged |
| Raster.BannerBox | molgif.go:459-477 | the banner stays in a 27x4 box two pixels in from the right and bottom edges |
| Raster.DrawBanner | molgif.go:459-477 | exactly the mask's dots that fall inside the image turn grey; every other pixel is unchanged |
| Tracing.FarthestBounds | molgif.go:494-508 | the camera distance is non-negative, bounds every point's length, and is 0 or some point's length |
| Tracing.FarthestLoop | molgif.go:494-508 | NewScene's loop computes that running maximum |
| MolgifMain.ExtFromFinds | molgif.go:685 | path.Ext: the extension starts at the last dot after the last slash; with no such dot it is empty |
| MolgifMain.ExtSplits | molgif.go:680-687 | stem plus extension is the input; an extension is empty or a dot followed by neither dot nor slash |
| MolgifMain.RotVecFacts | molgif.go:688-726 | each axis component is -1 iff its reverse flag is set, otherwise 1 iff its flag is set; the weight lies in [1, 3]; with no flags the spin is about y |
| MolgifMain.ResolveAccepts | molgif.go:654-675 | the options are accepted iff sizes and loop time are positive, the colours fit a byte, both sizes are non-negative and an input is named |
| MolgifMain.ResolvedConfig | molgif.go:669-701 | the atom size is the requested one and the bond size is clamped to it (kept when no larger, else the atom size); the rotation axes are RotVec's; the output defaults to the input's stem plus .gif or .png; the banner is on unless -l; the background is opaque in the requested colour |
| MolgifMain.Run | molgif.go:624-733 | main stops at the first usage error, then at a load error; otherwise it yields a still iff -p, showing the staged scene, or loopTime*50 frames with delay 2 showing the spinning molecule |
| MolgifMain.Stage | molgif.go:696-701 | the scene is NewScene's for the loaded molecule, configured and with its geometry built |
| MolgifMain.Configure | molgif.go:697-700 | the banner, background and both sizes take the configured values |
| MolgifMain.Picture | molgif.go:702-706 | the still frame shows the staged scene |
| MolgifMain.Movie | molgif.go:707-728 | the animation's frames show the spinning molecule under the configured camera |
| EarlyMolecule.LookupAgrees | main.go:257 | both revisions paint every symbol with the same colour; the earlier one gives a positive radius exactly to the symbols the later table knows, and an opaque colour exactly to those |
| EarlyMolecule.LayoutShape | main.go:254-267 | the layout holds a sphere per atom in atom order, then one placeholder cylinder per bond, and every atom is bonded to itself |
| EarlyMolecule.Molecule.constructor | main.go:276-290 | the molecule starts with the parsed atoms |
| EarlyMolecule.Molecule.MoveToOrigin | main.go:220-229 | the atoms become their centred copy |
| EarlyMolecule.Molecule.MakeBonds | main.go:231-245 | the fresh bond list is every close pair, self-pairs and hydrogen pairs included |
| EarlyMolecule.Molecule.Rotate | main.go:247-252 | every atom is turned about y through the angle |
| EarlyMolecule.Molecule.Geometry | main.go:254-267 | the shape list is the molecule's layout |
| EarlyMolecule.Molecule.BondShapes | main.go:261-265 | one placeholder cylinder per bond |
| EarlyMolecule.RotateKeepsY | main.go:247-252 | any number of turns keeps every atom's y coordinate, whatever axis flags were given |
| EarlyMolecule.RotateBack | main.go:247-252 | with sine odd, cosine even and the pair on the unit circle, turning by -angle puts every atom back |
| EarlyMolecule.Balls | main.go:254-260 | one sphere per atom, in atom order, each at the atom's position with its element's radius and colour |
| EarlyMolecule.NewMolecule | main.go:269-299 | fails exactly as the later revision's load check does; on success the molecule holds the centred parsed atoms |
| EarlyScene.CylinderNeverHit | main.go:154-160 | whatever its end points, a bond's cylinder reports no hit, so tracing it leaves the nearest distance and colour found so far unchanged |
| EarlyScene.Factor | main.go:345-348 | the light factor is the cosine clamped below at 0 |
| EarlyScene.Shade | main.go:349-352 | shading keeps alpha and darkens every channel; facing away gives black, full light the material colour |
| EarlyScene.Scan | main.go:335-354 | the scan's nearest distance never exceeds MaxFloat32 |
| EarlyScene.ScanResult | main.go:335-354 | a pixel no shape hits has the background colour; otherwise it has the shaded colour of the unique nearest hit |
| EarlyScene.RodsInvisible | main.go:158-160 | appending placeholder cylinders never changes a pixel |
| EarlyScene.LayoutShowsBalls | main.go:254-267 | the picture of a layout is the picture of its spheres alone |
| EarlyScene.Scene.constructor | main.go:312-329 | the camera stands 10 beyond the farthest shape centre; one light at (10, 10, -10) |
| EarlyScene.Scene.UpdateGeometry | main.go:361-363 | the scene's shapes become the molecule's current layout |
| EarlyScene.Scene.RenderTile | main.go:331-359 | a fresh tile whose every pixel is the traced colour at its frame position |
| EarlyScene.Scene.Render | main.go:365-397 | for any order in which the tiles come back, every pixel of the fresh frame is its traced colour |
| EarlyScene.SpunIsTurnedN | main.go:423-429 | turning k times, step by step, is TurnedN with k turns |
| EarlyScene.PosesAt | main.go:423-429 | pose k of the animation is the molecule turned k+1 times, because the loop turns before it renders |
| EarlyScene.LayoutPictures | main.go:254-267 | a frame shows a molecule's layout iff it shows its spheres alone, because the placeholder cylinders never reach the image |
| EarlyScene.Frame | main.go:424-426 | one loop step: the molecule takes one more turn, and the frame rendered from the rebuilt shapes shows the turned molecule |
| EarlyScene.RenderAll | main.go:408-430 | loopTime*50 frames with delay 2; frame i shows the spheres of the molecule turned i+1 times about y through 2*pi/nframes |
| EarlyScene.Animate | main.go:423-429 | nframes frames, each the picture of the molecule's spheres after one more turn |
| EarlyMain.ResolveAccepts | main.go:455-463 | the options are accepted iff sizes and loop time are positive and the colours fit a byte |
| EarlyMain.ResolvedConfig | main.go:464-492 | an out-of-range style falls back to the default; the input defaults to sample.xyz; the output defaults to its stem plus the format's suffix; y is set when no axis is |
| EarlyMain.Run | main.go:441-504 | main stops at the first usage error, then at a load error; otherwise it yields a still iff -p, or loopTime*50 frames with delay 2 of the molecule spinning about y |
| EarlyMain.Stage | main.go:491-492 | the scene is NewScene's for the loaded molecule's geometry and the background colour |
| EarlyMain.Movie | main.go:498-499 | the animation's frames show the molecule turned once more per frame |

## Left out

- Reading and parsing the XYZ file is I/O. The parsed atoms are a parameter, and NewMolecule's model starts from them; parse and open errors are not modelled.
- Creating and writing the output file, PNG and GIF encoding, MakePaletted's palette conversion, pprof profiling and the progress dots are I/O, and are not modelled.
- The rendering goroutines and channels are not modelled. Render is a sequential loop over an arbitrary arrival order of the scheduled tiles; the contracts hold for every such order.
- float32 rounding is not modelled: coordinates are exact reals. Square root, sine and cosine are parameters (`trig`), so their accuracy is not modelled either.
- The ray–sphere and ray–cylinder intersection numerics and the light cosine are parameters (a `Tracer`). EarlyScene assumes that cosine lies in [-1, 1].
- NewRay and NewView's camera vectors are not modelled: a ray is named by its pixel (`Probe`). The earlier revision's NewRay scales by width where the later one scales by height; the abstract probe does not capture that difference.
- MatAlignRot, Vec.Normalize, Mat.Scale and Mat.Add only serve the intersection numerics, so they are not modelled.
- The later revision's NewCylinder derived fields (centre, unit axis, half length and bounding-sphere radius) are not modelled. A half bond is kept as its end points, radius and colour.
- The element tables are reduced to eight entries: H, He, C, N, O, P, S and Cl. The lookup code is the same for every entry.
- The parser's strings.Title on each symbol is part of parsing, and is not modelled; the parsed names are taken as given.
- MolgifScene.RenderAll: does not model int overflow of loopTime*50; integers are unbounded.
- The earlier revision's angv vector and its style value are computed but never used by the renderer. They are modelled only as far as the configuration goes.
- EarlyScene.Frame: does not state the scene's new shape list; it states the frame's picture through the spheres alone (LayoutPictures), because the layout's bond scan makes the loop proofs too costly.
- EarlyScene.RenderAll: does not state the scene's final shape list, only each frame's picture and the molecule's final pose, for the same reason.
- EarlyScene.Animate: does not state the scene's final shape list, for the same reason.
