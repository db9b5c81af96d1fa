/** The command line of molgif.go: the option checks main makes, in the order
    it makes them, the output name it derives from the input, the default and
    direction of the rotation axes, and the pipeline from the parsed atoms to
    the still image or the animation. Reading the file, writing and encoding
    the output, and the profiling flag are I/O and are not modelled. */
module MolgifMain {
  import opened Kernel
  import opened Wrappers
  import opened Raster
  import opened Tracing
  import opened Atoms
  import opened MolgifMolecule
  import opened MolgifScene

  /** The values of the flags after parsing, and the first argument. */
  datatype Flags = Flags(
    output: string,
    width: int, height: int, loopTime: int,
    x: bool, y: bool, z: bool, xRev: bool, yRev: bool, zRev: bool,
    hideBanner: bool, png: bool,
    red: nat, green: nat, blue: nat,
    atomSize: real, bondSize: real,
    input: string)

  /** The fatal usage errors, one per check. */
  datatype UsageError = BadSize | BadLoopTime | BadColour | BadAtomSize | BadBondSize | NoInput

  /** The settings main goes on with once every check has passed. */
  datatype Config = Config(
    output: string,
    width: nat, height: nat, loopTime: nat,
    rotvec: Vec,
    banner: bool, png: bool,
    bg: RGBA,
    atomSize: real, bondSize: real,
    input: string)

  /** The first check that fails, in main's order. */
  function Check(f: Flags): Option<UsageError>
  {
    if f.width < 1 || f.height < 1 then Some(BadSize)
    else if f.loopTime < 1 then Some(BadLoopTime)
    else if f.red > 255 || f.green > 255 || f.blue > 255 then Some(BadColour)
    else if f.atomSize < 0.0 then Some(BadAtomSize)
    else if f.bondSize < 0.0 then Some(BadBondSize)
    else if f.input == "" then Some(NoInput)
    else None
  }

  /** The index at which path.Ext's suffix starts, scanning from position
      k - 1 down: the last '.' of the final slash-separated element, or |s|
      when that element has none. */
  function ExtFrom(s: string, k: nat): (i: nat)
    requires k <= |s|
    ensures i <= |s|
  {
    if k == 0 || s[k - 1] == '/' then |s|
    else if s[k - 1] == '.' then k - 1
    else ExtFrom(s, k - 1)
  }

  /** path.Ext(s). */
  function Ext(s: string): string
  {
    s[ExtFrom(s, |s|)..]
  }

  /** The input name without its extension: `inp[:len(inp)-len(path.Ext(inp))]`. */
  function Stem(s: string): string
  {
    s[..|s| - |Ext(s)|]
  }

  /** No '/' among s[j..k]. */
  predicate NoSlash(s: string, j: nat, k: nat)
    requires j <= k <= |s|
  {
    forall m :: j <= m < k ==> s[m] != '/'
  }

  /** What the backward scan finds: either a '.' with neither a '/' nor
      another '.' after it before k, or, when it finds nothing, no '.' in the
      slash-free tail of s[..k]. */
  lemma {:induction false} ExtFromFinds(s: string, k: nat)
    requires k <= |s|
    ensures ExtFrom(s, k) < |s| ==>
              ExtFrom(s, k) < k && s[ExtFrom(s, k)] == '.' && NoSlash(s, ExtFrom(s, k), k) &&
              forall m :: ExtFrom(s, k) < m < k ==> s[m] != '.'
    ensures ExtFrom(s, k) == |s| ==>
              forall j :: 0 <= j < k && NoSlash(s, j, k) ==> s[j] != '.'
  {
    if k > 0 && s[k - 1] != '/' && s[k - 1] != '.' {
      ExtFromFinds(s, k - 1);
      if ExtFrom(s, k) == |s| {
        forall j | 0 <= j < k && NoSlash(s, j, k)
          ensures s[j] != '.'
        {
          if j < k - 1 {
            assert NoSlash(s, j, k - 1);
          }
        }
      }
    } else if k > 0 && s[k - 1] == '/' {
      forall j | 0 <= j < k
        ensures !NoSlash(s, j, k)
      {
        assert s[k - 1] == '/';
      }
    }
  }

  /** The stem and the extension put back together give the name; the
      extension is empty or a '.' followed by neither '/' nor '.', and it is
      empty only when the last path element has no '.' at all. */
  lemma ExtSplits(s: string)
    ensures Stem(s) + Ext(s) == s
    ensures Ext(s) == [] || (Ext(s)[0] == '.' && '/' !in Ext(s) && '.' !in Ext(s)[1..])
    ensures Ext(s) == [] ==> forall j :: 0 <= j < |s| && NoSlash(s, j, |s|) ==> s[j] != '.'
  {
    ExtFromFinds(s, |s|);
    var i := ExtFrom(s, |s|);
    assert Stem(s) == s[..i];
    if i < |s| {
      var e := Ext(s);
      forall m | 0 <= m < |e|
        ensures e[m] != '/' && (m > 0 ==> e[m] != '.')
      {
        assert e[m] == s[i + m];
      }
    }
  }

  /** The -o name, or the input's stem with ".gif", or ".png" for a still. */
  function OutputName(output: string, input: string, png: bool): string
  {
    if output != "" then output
    else Stem(input) + if png then ".png" else ".gif"
  }

  /** One axis of rotvec: 1 for the forward flag, overridden by -1 for the
      reverse flag, 0 for neither. */
  function Axis(forward: bool, reverse: bool): real
  {
    if reverse then -1.0 else if forward then 1.0 else 0.0
  }

  /** The rotation axes, with -y implied when no axis flag is set. */
  function RotVec(f: Flags): Vec
  {
    var none := !f.x && !f.y && !f.z && !f.xRev && !f.yRev && !f.zRev;
    Vec(Axis(f.x, f.xRev), Axis(f.y || none, f.yRev), Axis(f.z, f.zRev))
  }

  /** Every rotvec entry is -1, 0 or 1, the weight is at least 1 (so the
      angle's square root is of a positive number), a reverse flag wins over
      a forward one, and with no flag the spin is about y alone. */
  lemma RotVecFacts(f: Flags)
    ensures var v := RotVec(f);
            v.x in {-1.0, 0.0, 1.0} && v.y in {-1.0, 0.0, 1.0} && v.z in {-1.0, 0.0, 1.0}
    ensures 1.0 <= Weight(RotVec(f)) <= 3.0
    ensures RotVec(f).x == -1.0 <==> f.xRev
    ensures RotVec(f).y == -1.0 <==> f.yRev
    ensures RotVec(f).z == -1.0 <==> f.zRev
    ensures RotVec(f).x == 1.0 <==> f.x && !f.xRev
    ensures RotVec(f).y == 1.0 <==> !f.yRev && (f.y || (!f.x && !f.z && !f.xRev && !f.zRev))
    ensures RotVec(f).z == 1.0 <==> f.z && !f.zRev
    ensures !f.x && !f.y && !f.z && !f.xRev && !f.yRev && !f.zRev ==> RotVec(f) == Vec(0.0, 1.0, 0.0)
  {
  }

  /** main's option handling: the checks, the clamp of the bond size to the
      atom size, the output name and the rotation axes. */
  function Resolve(f: Flags): (r: Result<Config, UsageError>)
    ensures r.Err? <==> Check(f).Some?
    ensures r.Err? ==> r.error == Check(f).value
  {
    match Check(f)
    case Some(e) => Err(e)
    case None =>
      Ok(Config(OutputName(f.output, f.input, f.png),
                f.width, f.height, f.loopTime,
                RotVec(f),
                !f.hideBanner, f.png,
                RGBA(f.red, f.green, f.blue, 255),
                f.atomSize, if f.atomSize < f.bondSize then f.atomSize else f.bondSize,
                f.input))
  }

  /** The flags are accepted exactly when the sizes and loop time are
      positive, every colour component fits a byte, neither shape size is
      negative and there is an input; an earlier check's error hides a later
      one. */
  lemma ResolveAccepts(f: Flags)
    ensures Resolve(f).Ok? <==>
              f.width >= 1 && f.height >= 1 && f.loopTime >= 1 &&
              f.red <= 255 && f.green <= 255 && f.blue <= 255 &&
              f.atomSize >= 0.0 && f.bondSize >= 0.0 && f.input != ""
    ensures Resolve(f) == Err(NoInput) ==>
              f.width >= 1 && f.height >= 1 && f.loopTime >= 1 &&
              f.red <= 255 && f.green <= 255 && f.blue <= 255 &&
              f.atomSize >= 0.0 && f.bondSize >= 0.0
    ensures Resolve(f) == Err(BadSize) <==> f.width < 1 || f.height < 1
  {
  }

  /** An accepted configuration: the atom size is the requested one and the
      bond size is clamped to it; the rotation axes are RotVec's; the background is opaque in the
      requested colour; the banner shows unless hidden; without -o the output
      is the input's stem with the format's suffix. */
  lemma ResolvedConfig(f: Flags)
    requires Resolve(f).Ok?
    ensures var c := Resolve(f).value;
            c.atomSize == f.atomSize &&
            0.0 <= c.bondSize <= c.atomSize &&
            (f.bondSize <= f.atomSize ==> c.bondSize == f.bondSize) &&
            (f.atomSize < f.bondSize ==> c.bondSize == f.atomSize) &&
            c.rotvec == RotVec(f) && c.png == f.png && c.input == f.input &&
            c.bg.a == 255 && c.bg.r == f.red && c.bg.g == f.green && c.bg.b == f.blue &&
            c.banner == !f.hideBanner &&
            c.width >= 1 && c.height >= 1 && c.loopTime >= 1
    ensures f.output != "" ==> Resolve(f).value.output == f.output
    ensures f.output == "" ==>
              Resolve(f).value.output == Stem(f.input) + (if f.png then ".png" else ".gif") &&
              Stem(f.input) + Ext(f.input) == f.input
  {
    ExtSplits(f.input);
  }

  /** Why main stops early. */
  datatype Failure = Usage(usage: UsageError) | Load(load: LoadError)

  /** What main writes: a still image (-p) or the frames of the animation
      with their delays. */
  datatype Output = Still(img: array2<RGBA>) | Animation(frames: seq<array2<RGBA>>, delays: seq<int>)

  /** The camera main sets up: the given size, 8 beyond the farthest atom
      of the centred molecule. */
  function Camera(c: Config, parsed: seq<Atom>, length: Vec -> real): View
  {
    View(c.width, c.height, Farthest(Positions(Centered(parsed)), length) + 8.0)
  }

  /** The shapes of the centred molecule with its bonds, at the configured sizes. */
  ghost function Pose(c: Config, parsed: seq<Atom>): seq<Shape>
  {
    BondListInRange(parsed, true);
    Geometry(Centered(parsed), BondList(parsed, true), c.atomSize, c.bondSize)
  }

  /** The shape lists of every frame of the animation the flags ask for. */
  ghost function Reel(f: Flags, parsed: seq<Atom>, trig: Trig): seq<seq<Shape>>
    requires Resolve(f).Ok?
    requires forall w: real :: w >= 1.0 ==> trig.sqrt(w) > 0.0
  {
    ResolvedConfig(f);
    RotVecFacts(f);
    BondListInRange(parsed, true);
    var c := Resolve(f).value;
    Film(Centered(parsed), BondList(parsed, true), Spin(c.loopTime, c.rotvec, trig),
         c.atomSize, c.bondSize, c.loopTime * FPS)
  }

  /** main, from the parsed flags and the atoms read from the input file:
      stop at the first usage error, then at a load error; otherwise build
      the scene (NewScene, then the banner, the background, the two sizes and
      the geometry) and render a still or the animation. `length` is Vec.Len,
      `trig` supplies the float32 sine, cosine and square root, `tr` the
      intersection numerics and `arrival(i)` the order in which frame i's
      tiles come back. */
  method Run(f: Flags, parsed: seq<Atom>, length: Vec -> real, trig: Trig, tr: Tracer, arrival: nat -> seq<Rect>)
    returns (r: Result<Output, Failure>)
    requires forall w: real :: w >= 1.0 ==> trig.sqrt(w) > 0.0
    requires f.width >= 1 && f.height >= 1 ==>
               forall i: nat, t :: t in arrival(i) <==> t in Schedule(f.width, f.height)
    ensures Resolve(f).Err? ==> r == Err(Usage(Resolve(f).error))
    ensures Resolve(f).Ok? && LoadCheck(parsed).Some? ==> r == Err(Load(LoadCheck(parsed).value))
    ensures Resolve(f).Ok? && LoadCheck(parsed).None? ==> r.Ok?
    ensures r.Ok? ==> (r.value.Still? <==> f.png)
    ensures Resolve(f).Ok? && r.Ok? && r.value.Still? ==>
              var c := Resolve(f).value;
              fresh(r.value.img) &&
              Shows(r.value.img, Pose(c, parsed), Camera(c, parsed, length),
                    Vec(1000.0, 500.0, -1000.0), c.bg, c.banner, tr)
    ensures Resolve(f).Ok? && r.Ok? && r.value.Animation? ==>
              var c := Resolve(f).value;
              |r.value.frames| == |r.value.delays| == c.loopTime * FPS &&
              (forall i :: 0 <= i < |r.value.delays| ==> r.value.delays[i] == 2) &&
              (forall i :: 0 <= i < |r.value.frames| ==> fresh(r.value.frames[i])) &&
              forall i :: 0 <= i < |r.value.frames| ==>
                Shows(r.value.frames[i], Reel(f, parsed, trig)[i], Camera(c, parsed, length),
                      Vec(1000.0, 500.0, -1000.0), c.bg, c.banner, tr)
  {
    var resolved := Resolve(f);
    if resolved.Err? {
      return Err(Usage(resolved.error));
    }
    var c := resolved.value;
    var loaded := NewMolecule(parsed);
    if loaded.Err? {
      return Err(Load(loaded.error));
    }
    ResolvedConfig(f);
    var sc := Stage(c, parsed, loaded.value, length);
    if c.png {
      var img := Picture(c, parsed, length, sc, tr, arrival(0));
      return Ok(Still(img));
    }
    var frames, delays := Movie(f, parsed, length, sc, trig, tr, arrival);
    return Ok(Animation(frames, delays));
  }

  /** The scene is set up from the configuration for the loaded molecule. */
  ghost predicate Staged(sc: Scene, c: Config, parsed: seq<Atom>, length: Vec -> real)
    reads sc, sc.mol
  {
    && sc.UpToDate()
    && sc.mol.atoms == Centered(parsed) && sc.mol.bonds == BondList(parsed, true)
    && sc.view == Camera(c, parsed, length) && sc.light == Vec(1000.0, 500.0, -1000.0)
    && sc.bg == c.bg && sc.banner == c.banner
    && sc.atomSize == c.atomSize && sc.bondSize == c.bondSize
  }

  /** NewScene on the loaded molecule, then the banner, the background, the
      two sizes and the geometry from the configuration. */
  method Stage(c: Config, parsed: seq<Atom>, mol: Molecule, length: Vec -> real) returns (sc: Scene)
    requires mol.Valid() && mol.atoms == Centered(parsed) && mol.bonds == BondList(parsed, true)
    ensures fresh(sc) && sc.mol == mol
    ensures Staged(sc, c, parsed, length)
  {
    sc := new Scene(mol, c.width, c.height, length);
    Configure(sc, c);
    sc.UpdateGeometry();
  }

  /** Copy the banner, the background and the two sizes into the scene. */
  method Configure(sc: Scene, c: Config)
    modifies sc`banner, sc`bg, sc`atomSize, sc`bondSize
    ensures sc.bg == c.bg && sc.banner == c.banner
    ensures sc.atomSize == c.atomSize && sc.bondSize == c.bondSize
  {
    sc.banner := c.banner;
    sc.bg := c.bg;
    sc.atomSize := c.atomSize;
    sc.bondSize := c.bondSize;
  }

  /** The -p branch: one frame of the molecule as loaded. */
  method Picture(c: Config, parsed: seq<Atom>, length: Vec -> real, sc: Scene, tr: Tracer, arrivals: seq<Rect>)
    returns (img: array2<RGBA>)
    requires Staged(sc, c, parsed, length)
    requires forall t :: t in arrivals <==> t in Schedule(c.width, c.height)
    ensures fresh(img)
    ensures Shows(img, Pose(c, parsed), Camera(c, parsed, length), Vec(1000.0, 500.0, -1000.0), c.bg, c.banner, tr)
  {
    img := sc.Render(arrivals, tr);
  }

  /** The animation branch: RenderAll with the resolved axes. */
  method Movie(f: Flags, parsed: seq<Atom>, length: Vec -> real, sc: Scene, trig: Trig, tr: Tracer, arrival: nat -> seq<Rect>)
    returns (frames: seq<array2<RGBA>>, delays: seq<int>)
    requires Resolve(f).Ok? && Staged(sc, Resolve(f).value, parsed, length)
    requires forall w: real :: w >= 1.0 ==> trig.sqrt(w) > 0.0
    requires forall i: nat, t :: t in arrival(i) <==> t in Schedule(f.width, f.height)
    modifies sc, sc.mol
    ensures |frames| == |delays| == Resolve(f).value.loopTime * FPS
    ensures forall i :: 0 <= i < |delays| ==> delays[i] == 2
    ensures forall i :: 0 <= i < |frames| ==> fresh(frames[i])
    ensures forall i :: 0 <= i < |frames| ==>
              Shows(frames[i], Reel(f, parsed, trig)[i], Camera(Resolve(f).value, parsed, length),
                    Vec(1000.0, 500.0, -1000.0), Resolve(f).value.bg, Resolve(f).value.banner, tr)
  {
    var c := Resolve(f).value;
    ResolvedConfig(f);
    RotVecFacts(f);
    frames, delays := RenderAll(sc, c.loopTime, c.rotvec, trig, tr, arrival);
  }
}
