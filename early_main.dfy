/** The command line of the earlier revision, main.go: three option checks,
    the style clamp, the default input, the output name, the y-axis default,
    and the pipeline from the parsed atoms to the still image or the
    animation. Reading the file and writing and encoding the output are I/O
    and are not modelled. */
module EarlyMain {
  import opened Kernel
  import opened Wrappers
  import opened Raster
  import opened Tracing
  import opened Atoms
  import opened EarlyMolecule
  import opened EarlyScene
  import MolgifMolecule
  import MolgifScene
  import MolgifMain

  /** The values of the flags after parsing, and the first argument. */
  datatype Flags = Flags(
    output: string,
    width: int, height: int,
    x: bool, y: bool, z: bool,
    loopTime: int,
    red: nat, green: nat, blue: nat,
    png: bool,
    style: nat,
    input: string)

  /** The fatal usage errors, one per check. */
  datatype UsageError = BadSize | BadLoopTime | BadColour

  /** The rendering styles; StyleLast is one past the last one. */
  const StyleDefault: nat := 0
  const StyleNoBonds: nat := 1
  const StyleFatBonds: nat := 2
  const StyleBalls: nat := 3
  const StyleLast: nat := 4

  /** The settings main goes on with once every check has passed. */
  datatype Config = Config(
    output: string,
    width: nat, height: nat, loopTime: nat,
    x: bool, y: bool, z: bool,
    png: bool,
    bg: RGBA,
    style: nat,
    input: string)

  /** The first check that fails, in main's order. */
  function Check(f: Flags): Option<UsageError>
  {
    if f.width < 1 || f.height < 1 then Some(BadSize)
    else if f.loopTime < 1 then Some(BadLoopTime)
    else if f.red > 255 || f.green > 255 || f.blue > 255 then Some(BadColour)
    else None
  }

  /** The input file: the first argument, or "sample.xyz" without one. */
  function Input(arg: string): string
  {
    if arg == "" then "sample.xyz" else arg
  }

  /** main's option handling: the checks, the style clamp, the default
      input, the output name and the y default for the axis flags. */
  function Resolve(f: Flags): (r: Result<Config, UsageError>)
    ensures r.Err? <==> Check(f).Some?
    ensures r.Err? ==> r.error == Check(f).value
  {
    match Check(f)
    case Some(e) => Err(e)
    case None =>
      var inp := Input(f.input);
      var none := !f.x && !f.y && !f.z;
      Ok(Config(MolgifMain.OutputName(f.output, inp, f.png),
                f.width, f.height, f.loopTime,
                f.x, f.y || none, f.z,
                f.png,
                RGBA(f.red, f.green, f.blue, 255),
                if f.style >= StyleLast then StyleDefault else f.style,
                inp))
  }

  /** The flags are accepted exactly when the sizes and loop time are
      positive and every colour component fits a byte; there is no check on
      the input, which defaults instead; an earlier check's error hides a
      later one. */
  lemma ResolveAccepts(f: Flags)
    ensures Resolve(f).Ok? <==>
              f.width >= 1 && f.height >= 1 && f.loopTime >= 1 &&
              f.red <= 255 && f.green <= 255 && f.blue <= 255
    ensures Resolve(f) == Err(BadSize) <==> f.width < 1 || f.height < 1
    ensures Resolve(f) == Err(BadLoopTime) <==> f.width >= 1 && f.height >= 1 && f.loopTime < 1
    ensures Resolve(f) == Err(BadColour) ==> f.width >= 1 && f.height >= 1 && f.loopTime >= 1
  {
  }

  /** An accepted configuration: an out-of-range style falls back to the
      default and an in-range one is kept; the input defaults to
      "sample.xyz"; without -o the output is the input's stem with the
      format's suffix; at least one axis is set, y exactly when asked for or
      when no axis was; the background is opaque in the requested colour. */
  lemma ResolvedConfig(f: Flags)
    requires Resolve(f).Ok?
    ensures var c := Resolve(f).value;
            c.style < StyleLast &&
            (f.style < StyleLast ==> c.style == f.style) &&
            (f.style >= StyleLast ==> c.style == StyleDefault) &&
            c.input != "" && (f.input != "" ==> c.input == f.input) &&
            (f.input == "" ==> c.input == "sample.xyz") &&
            (c.x || c.y || c.z) &&
            c.x == f.x && c.z == f.z && (c.y <==> f.y || (!f.x && !f.z)) &&
            c.bg == RGBA(f.red, f.green, f.blue, 255) &&
            c.width >= 1 && c.height >= 1 && c.loopTime >= 1
    ensures f.output != "" ==> Resolve(f).value.output == f.output
    ensures f.output == "" ==>
              var inp := Resolve(f).value.input;
              Resolve(f).value.output == MolgifMain.Stem(inp) + (if f.png then ".png" else ".gif") &&
              MolgifMain.Stem(inp) + MolgifMain.Ext(inp) == inp
  {
    MolgifMain.ExtSplits(Resolve(f).value.input);
  }

  /** Why main stops early. */
  datatype Failure = Usage(usage: UsageError) | Load(load: MolgifMolecule.LoadError)

  /** The number of frames of the animation. */
  function Frames(c: Config): nat
  {
    c.loopTime * MolgifScene.FPS
  }

  /** The light of NewScene. */
  const Light := Vec(10.0, 10.0, -10.0)

  /** The shapes of the loaded, centred molecule. */
  ghost function Pose(parsed: seq<Atom>): seq<Shape>
  {
    Layout(Centered(parsed))
  }

  /** The camera NewScene sets up: the given size, 10 beyond the farthest
      centre of those shapes. */
  ghost function Camera(c: Config, parsed: seq<Atom>, length: Vec -> real): View
  {
    View(c.width, c.height, Farthest(Centers(Pose(parsed)), length) + 10.0)
  }

  /** The molecule in every frame of the animation the configuration asks for. */
  ghost function Reel(c: Config, parsed: seq<Atom>, trig: Trig): seq<seq<Atom>>
    requires c.loopTime >= 1
  {
    Poses(Centered(parsed), RotY(FrameAngle(Frames(c)), trig), Frames(c))
  }

  /** main, from the parsed flags and the atoms read from the input file:
      stop at the first usage error, then at a load error; otherwise build
      the scene from the molecule's geometry and render a still or the
      animation. `length` is Vec.Len, `trig` supplies math.Sincos, `tr` the
      intersection numerics and `arrival(i)` the order in which frame i's
      tiles come back. */
  method Run(f: Flags, parsed: seq<Atom>, length: Vec -> real, trig: Trig, tr: Tracer, arrival: nat -> seq<Rect>)
    returns (r: Result<MolgifMain.Output, Failure>)
    requires f.width >= 1 && f.height >= 1 ==>
               forall i: nat, t :: t in arrival(i) <==> t in Schedule(f.width, f.height)
    ensures Resolve(f).Err? ==> r == Err(Usage(Resolve(f).error))
    ensures Resolve(f).Ok? && MolgifMolecule.LoadCheck(parsed).Some? ==>
              r == Err(Load(MolgifMolecule.LoadCheck(parsed).value))
    ensures Resolve(f).Ok? && MolgifMolecule.LoadCheck(parsed).None? ==> r.Ok?
    ensures r.Ok? ==> (r.value.Still? <==> f.png)
    ensures Resolve(f).Ok? && r.Ok? && r.value.Still? ==>
              var c := Resolve(f).value;
              fresh(r.value.img) &&
              Pictures(r.value.img, Pose(parsed), Camera(c, parsed, length), Light, c.bg, tr)
    ensures Resolve(f).Ok? && r.Ok? && r.value.Animation? ==>
              var c := Resolve(f).value;
              |r.value.frames| == |r.value.delays| == Frames(c) &&
              (forall i :: 0 <= i < |r.value.delays| ==> r.value.delays[i] == 2) &&
              (forall i :: 0 <= i < |r.value.frames| ==> fresh(r.value.frames[i])) &&
              forall i :: 0 <= i < |r.value.frames| ==>
                Pictures(r.value.frames[i], Balls(Reel(c, parsed, trig)[i]), Camera(c, parsed, length), Light, c.bg, tr)
  {
    var resolved := Resolve(f);
    if resolved.Err? {
      return Err(Usage(resolved.error));
    }
    var c := resolved.value;
    ResolvedConfig(f);
    var loaded := NewMolecule(parsed);
    if loaded.Err? {
      return Err(Load(loaded.error));
    }
    var m := loaded.value;
    var s := Stage(c, parsed, m, length);
    if c.png {
      var img := s.Render(arrival(0), tr);
      return Ok(MolgifMain.Still(img));
    }
    var frames, delays := Movie(c, parsed, length, m, s, trig, tr, arrival);
    return Ok(MolgifMain.Animation(frames, delays));
  }

  /** The scene is NewScene's for the loaded molecule, in the configured size
      and colour, and the molecule is still as loaded. */
  ghost predicate Staged(s: Scene, m: Molecule, c: Config, parsed: seq<Atom>, length: Vec -> real)
    reads s, m
  {
    && m.atoms == Centered(parsed)
    && s.shapes == Pose(parsed)
    && s.view == Camera(c, parsed, length)
    && s.lights == [Light]
    && s.bg == c.bg
  }

  /** `NewScene(m.Geometry(), bg, w, h)`. */
  method Stage(c: Config, parsed: seq<Atom>, m: Molecule, length: Vec -> real) returns (s: Scene)
    requires m.atoms == Centered(parsed)
    ensures fresh(s)
    ensures Staged(s, m, c, parsed, length)
  {
    var g := m.Geometry();
    s := new Scene(g, c.bg, c.width, c.height, length);
  }

  /** The animation branch of main: RenderAll with the configured loop time
      and axes. */
  method Movie(c: Config, parsed: seq<Atom>, length: Vec -> real, m: Molecule, s: Scene, trig: Trig, tr: Tracer, arrival: nat -> seq<Rect>)
    returns (frames: seq<array2<RGBA>>, delays: seq<int>)
    requires c.loopTime >= 1
    requires Staged(s, m, c, parsed, length)
    requires forall i: nat, t :: t in arrival(i) <==> t in Schedule(s.view.width, s.view.height)
    modifies s`shapes, m
    ensures |frames| == |delays| == Frames(c)
    ensures forall i :: 0 <= i < |delays| ==> delays[i] == 2
    ensures forall i :: 0 <= i < |frames| ==> fresh(frames[i])
    ensures forall i :: 0 <= i < |frames| ==>
              Pictures(frames[i], Balls(Reel(c, parsed, trig)[i]), Camera(c, parsed, length), Light, c.bg, tr)
  {
    frames, delays := RenderAll(s, m, c.loopTime, c.x, c.y, c.z, trig, tr, arrival);
  }
}
