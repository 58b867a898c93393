/** The console's video driver as far as it decides anything without
    Direct3D: the list of screen modes built from the console's video flags,
    the pixel format, pitch and presentation flag chosen for a requested
    mode, and the pixel format reported at initialisation. Every SDK and
    Direct3D call is an input. */
module XboxVideo {

  import opened Common

  // ----------------------------------------------------------- constants

  /** The console's video capability flags. */
  const XC_VIDEO_FLAGS_WIDESCREEN: bv32 := 0x0000_0001
  const XC_VIDEO_FLAGS_HDTV_720p: bv32 := 0x0000_0002
  const XC_VIDEO_FLAGS_HDTV_1080i: bv32 := 0x0000_0004
  const XC_VIDEO_FLAGS_HDTV_480p: bv32 := 0x0000_0008
  const XC_VIDEO_FLAGS_PAL_60Hz: bv32 := 0x0000_0040
  /** The video standard of a PAL console. */
  const XC_VIDEO_STANDARD_PAL_I: nat := 3

  /** SDL surface flags. */
  const SDL_HWSURFACE: bv32 := 0x0000_0001
  const SDL_HWPALETTE: bv32 := 0x2000_0000
  const SDL_DOUBLEBUF: bv32 := 0x4000_0000
  const SDL_FULLSCREEN: bv32 := 0x8000_0000

  /** A screen rectangle. */
  datatype Rect = Rect(x: int, y: int, w: int, h: int)

  const RECT_1920x1080: Rect := Rect(0, 0, 1920, 1080)
  const RECT_1280x720: Rect := Rect(0, 0, 1280, 720)
  const RECT_800x600: Rect := Rect(0, 0, 800, 600)
  const RECT_720x576: Rect := Rect(0, 0, 720, 576)
  const RECT_720x480: Rect := Rect(0, 0, 720, 480)
  const RECT_640x480: Rect := Rect(0, 0, 640, 480)
  const RECT_512x384: Rect := Rect(0, 0, 512, 384)
  const RECT_400x300: Rect := Rect(0, 0, 400, 300)
  const RECT_320x240: Rect := Rect(0, 0, 320, 240)
  const RECT_320x200: Rect := Rect(0, 0, 320, 200)

  /** The modes every console offers, after the optional ones. */
  const StandardModes: seq<Rect> := [RECT_800x600, RECT_640x480, RECT_512x384, RECT_400x300, RECT_320x240, RECT_320x200]

  /** Whether a video flag is set. */
  predicate HasFlag(vidflags: bv32, flag: bv32)
  {
    vidflags & flag != 0
  }

  // ------------------------------------------------------------ mode list

  /** A slot of the mode pointer array: never written, the terminating NULL,
      or a mode. */
  datatype Slot = Unset | Null | Mode(rect: Rect)

  /** The driver's mode list pointer: none yet, an allocated array, or an
      array that has been freed but whose pointer was kept. */
  datatype ModeTable = NoTable | Table(slots: seq<Slot>) | Freed

  /** The modes the console's flags and video standard call for, in order:
      1080i, 720p, the widescreen mode of the standard, then the standard modes. */
  function ExpectedModes(vidflags: bv32, standard: nat): seq<Rect>
  {
    (if HasFlag(vidflags, XC_VIDEO_FLAGS_HDTV_1080i) then [RECT_1920x1080] else [])
    + (if HasFlag(vidflags, XC_VIDEO_FLAGS_HDTV_720p) then [RECT_1280x720] else [])
    + (if HasFlag(vidflags, XC_VIDEO_FLAGS_WIDESCREEN)
       then [if standard == XC_VIDEO_STANDARD_PAL_I then RECT_720x576 else RECT_720x480] else [])
    + StandardModes
  }

  /** A write of one slot, which must lie inside the allocation. */
  function Store(slots: seq<Slot>, i: nat, s: Slot): (r: seq<Slot>)
    requires i < |slots|
    ensures |r| == |slots| && r[i] == s
    ensures forall k :: 0 <= k < |r| && k != i ==> r[k] == slots[k]
  {
    slots[i := s]
  }

  /** A reallocation to `n` slots (never smaller here): the old slots are
      kept and the new ones are unwritten. */
  function Grow(slots: seq<Slot>, n: nat): (r: seq<Slot>)
    requires |slots| <= n
    ensures |r| == n && r[..|slots|] == slots
    ensures forall k :: |slots| <= k < n ==> r[k] == Unset
  {
    slots + seq(n - |slots|, k => Unset)
  }

  /** An optional mode: written at the next index and the array grown to
      one slot past it. */
  function AddIf(slots: seq<Slot>, i: nat, cond: bool, m: Rect): (r: (seq<Slot>, nat))
    requires i < |slots| && |slots| == i + 1
    ensures |r.0| == r.1 + 1 && r.1 == if cond then i + 1 else i
    ensures r.0[..i] == slots[..i]
    ensures cond ==> r.0[i] == Mode(m)
  {
    if cond then (Grow(Store(slots, i, Mode(m)), i + 2), i + 1) else (slots, i)
  }

  /** The slots of a built list holding `modes` followed by the terminator. */
  predicate Holds(slots: seq<Slot>, modes: seq<Rect>)
  {
    |slots| == |modes| + 1 && slots[|modes|] == Null
    && forall k :: 0 <= k < |modes| ==> slots[k] == Mode(modes[k])
  }

  /** Building the mode list: refused with -1 when a list pointer is already
      set or the first allocation fails; otherwise the optional modes are
      written one by one, each followed by a reallocation to one slot past
      it, then the array is grown by six more slots, the standard modes are
      written and the NULL terminator after them. Returns the count. */
  function BuildModesList(table: ModeTable, mallocOk: bool, vidflags: bv32, standard: nat): (r: (int, ModeTable))
    ensures !table.NoTable? ==> r == (-1, table)
    ensures table.NoTable? && !mallocOk ==> r == (-1, NoTable)
    ensures table.NoTable? && mallocOk ==>
              r.0 == |ExpectedModes(vidflags, standard)| && r.1.Table?
              && Holds(r.1.slots, ExpectedModes(vidflags, standard))
  {
    if !table.NoTable? then (-1, table)
    else if !mallocOk then (-1, NoTable)
    else
      var (s1, i1) := AddIf([Unset], 0, HasFlag(vidflags, XC_VIDEO_FLAGS_HDTV_1080i), RECT_1920x1080);
      var (s2, i2) := AddIf(s1, i1, HasFlag(vidflags, XC_VIDEO_FLAGS_HDTV_720p), RECT_1280x720);
      var wide := if standard == XC_VIDEO_STANDARD_PAL_I then RECT_720x576 else RECT_720x480;
      var (s3, i) := AddIf(s2, i2, HasFlag(vidflags, XC_VIDEO_FLAGS_WIDESCREEN), wide);
      var t := AddStandard(s3, i);
      ModesBuiltLayout(s1, i1, s2, i2, s3, i, t, vidflags, standard);
      (i + 6, Table(t))
  }

  /** The end of the build: the array grown by six slots, the standard modes
      written from index `i` and the NULL after them. */
  function AddStandard(slots: seq<Slot>, i: nat): (t: seq<Slot>)
    requires |slots| == i + 1
    ensures |t| == i + 7 && t[i + 6] == Null && t[..i] == slots[..i]
    ensures forall k :: 0 <= k < 6 ==> t[i + k] == Mode(StandardModes[k])
  {
    var g := Grow(slots, i + 7);
    var f1 := Store(g, i, Mode(RECT_800x600));
    var f2 := Store(f1, i + 1, Mode(RECT_640x480));
    var f3 := Store(f2, i + 2, Mode(RECT_512x384));
    var f4 := Store(f3, i + 3, Mode(RECT_400x300));
    var f5 := Store(f4, i + 4, Mode(RECT_320x240));
    var f6 := Store(f5, i + 5, Mode(RECT_320x200));
    var t := Store(f6, i + 6, Null);
    assert t == slots[..i] + [Mode(RECT_800x600), Mode(RECT_640x480), Mode(RECT_512x384), Mode(RECT_400x300),
                              Mode(RECT_320x240), Mode(RECT_320x200), Null];
    t
  }

  /** The layout of a built list: the optional modes the flags select, in
      order, then the standard modes written at the end. */
  lemma ModesBuiltLayout(s1: seq<Slot>, i1: nat, s2: seq<Slot>, i2: nat, s3: seq<Slot>, i: nat, t: seq<Slot>, vidflags: bv32, standard: nat)
    requires |s1| == i1 + 1 && i1 == (if HasFlag(vidflags, XC_VIDEO_FLAGS_HDTV_1080i) then 1 else 0)
    requires HasFlag(vidflags, XC_VIDEO_FLAGS_HDTV_1080i) ==> s1[0] == Mode(RECT_1920x1080)
    requires |s2| == i2 + 1 && i2 == i1 + (if HasFlag(vidflags, XC_VIDEO_FLAGS_HDTV_720p) then 1 else 0)
    requires s2[..i1] == s1[..i1]
    requires HasFlag(vidflags, XC_VIDEO_FLAGS_HDTV_720p) ==> s2[i1] == Mode(RECT_1280x720)
    requires |s3| == i + 1 && i == i2 + (if HasFlag(vidflags, XC_VIDEO_FLAGS_WIDESCREEN) then 1 else 0)
    requires s3[..i2] == s2[..i2]
    requires HasFlag(vidflags, XC_VIDEO_FLAGS_WIDESCREEN) ==>
               s3[i2] == Mode(if standard == XC_VIDEO_STANDARD_PAL_I then RECT_720x576 else RECT_720x480)
    requires |t| == i + 7 && t[i + 6] == Null && t[..i] == s3[..i]
    requires forall k :: 0 <= k < 6 ==> t[i + k] == Mode(StandardModes[k])
    ensures Holds(t, ExpectedModes(vidflags, standard)) && |ExpectedModes(vidflags, standard)| == i + 6
  {
    var e := ExpectedModes(vidflags, standard);
    forall k | 0 <= k < |e|
      ensures t[k] == Mode(e[k])
    {
      if k < i2 {
        assert t[k] == s3[..i][k] == s2[..i2][k];
        if k < i1 {
          assert s2[k] == s1[..i1][k];
        }
      } else if k < i {
        assert t[k] == s3[..i][k];
      }
    }
  }

  /** A built list holds six to nine modes: the six standard ones and one
      for each of the 1080i, 720p and widescreen flags that is set. */
  lemma ModeCount(vidflags: bv32, standard: nat)
    ensures var n := |ExpectedModes(vidflags, standard)|;
            n == 6 + (if HasFlag(vidflags, XC_VIDEO_FLAGS_HDTV_1080i) then 1 else 0)
                   + (if HasFlag(vidflags, XC_VIDEO_FLAGS_HDTV_720p) then 1 else 0)
                   + (if HasFlag(vidflags, XC_VIDEO_FLAGS_WIDESCREEN) then 1 else 0)
            && 6 <= n <= 9
  {
  }

  /** No mode is listed twice, and the standard modes end every list. */
  lemma ModesDistinctAndEndStandard(vidflags: bv32, standard: nat)
    ensures var e := ExpectedModes(vidflags, standard);
            (forall j, k :: 0 <= j < k < |e| ==> e[j] != e[k])
            && e[|e| - 6..] == StandardModes
  {
  }

  /** The terminator is the first NULL: every slot before it holds a mode. */
  lemma TerminatorIsFirstNull(table: ModeTable, vidflags: bv32, standard: nat)
    requires table.NoTable?
    ensures var r := BuildModesList(table, true, vidflags, standard);
            r.1.Table? && 0 <= r.0 < |r.1.slots| && r.1.slots[r.0] == Null
            && forall k :: 0 <= k < r.0 ==> r.1.slots[k].Mode?
  {
  }

  /** Shutting video down as written: the list is freed but its pointer is
      kept. A non-NULL pointer is always passed to `free`, so a second
      shut-down (from `Freed`) frees the same list twice. */
  function VideoQuitAsWritten(table: ModeTable): (t: ModeTable)
    ensures table.NoTable? ==> t.NoTable?
    ensures !table.NoTable? ==> t.Freed?
  {
    if table.NoTable? then NoTable else Freed
  }

  /** Shutting video down with the list pointer cleared after the free. */
  function VideoQuit(table: ModeTable): (t: ModeTable)
    ensures t.NoTable?
  {
    NoTable
  }

  /** As written, once video has been shut down a new mode list can never be
      built: the kept pointer makes every later build refuse with -1. */
  lemma RebuildAfterQuitRefusedAsWritten(table: ModeTable, mallocOk: bool, vidflags: bv32, standard: nat)
    requires table.Table?
    ensures BuildModesList(VideoQuitAsWritten(table), mallocOk, vidflags, standard).0 == -1
    ensures VideoInit(VideoQuitAsWritten(table), mallocOk, vidflags, standard, true).status == 0
  {
  }

  /** With the pointer cleared, a build after shut-down lists the modes again. */
  lemma RebuildAfterQuit(table: ModeTable, vidflags: bv32, standard: nat)
    ensures var r := BuildModesList(VideoQuit(table), true, vidflags, standard);
            6 <= r.0 <= 9 && r.1.Table? && Holds(r.1.slots, ExpectedModes(vidflags, standard))
  {
    ModeCount(vidflags, standard);
  }

  // ------------------------------------------------------------ formats

  /** An SDL pixel format: depth, bytes per pixel and channel masks. */
  datatype PixelFormat = PixelFormat(bitsPerPixel: nat, bytesPerPixel: nat, rmask: bv32, gmask: bv32, bmask: bv32, amask: bv32)

  /** The depth a requested depth is served at: 8 as 16, 24 as 32, 16 and 32
      as they are, anything else refused. */
  function ServedDepth(bpp: int): (d: Option<nat>)
    ensures d.Some? <==> bpp in {8, 16, 24, 32}
    ensures d.Some? ==> d.value in {16, 32} && (d.value == 16 <==> bpp <= 16)
  {
    match bpp
    case 8 => Some(16)
    case 16 => Some(16)
    case 24 => Some(32)
    case 32 => Some(32)
    case _ => None
  }

  /** The format a served depth is drawn in: 5-6-5 at 16 bits, 8-8-8 at 32,
      without alpha. */
  function ModeFormat(depth: nat): (f: PixelFormat)
    requires depth in {16, 32}
    ensures f.bitsPerPixel == depth && f.bytesPerPixel == depth / 8 && f.amask == 0
    ensures depth == 16 ==> f.rmask == 0xF800 && f.gmask == 0x07E0 && f.bmask == 0x001F
    ensures depth == 32 ==> f.rmask == 0x00FF_0000 && f.gmask == 0x0000_FF00 && f.bmask == 0x0000_00FF
  {
    if depth == 16 then PixelFormat(16, 2, 0xF800, 0x07E0, 0x001F, 0)
    else PixelFormat(32, 4, 0x00FF_0000, 0x0000_FF00, 0x0000_00FF, 0)
  }

  /** The masks of a mode's format do not overlap and together cover every
      bit of a pixel. */
  lemma ModeMasksPartitionPixel(depth: nat)
    requires depth in {16, 32}
    ensures var f := ModeFormat(depth);
            f.rmask & f.gmask == 0 && f.gmask & f.bmask == 0 && f.rmask & f.bmask == 0
            && (depth == 16 ==> f.rmask | f.gmask | f.bmask == 0xFFFF)
            && (depth == 32 ==> f.rmask | f.gmask | f.bmask == 0x00FF_FFFF)
  {
  }

  /** Whether a mode is presented progressively: never for a 1920-wide or
      1080-high mode, otherwise for 1280x720 or when the console allows 480p. */
  predicate Progressive(width: int, height: int, vidflags: bv32)
  {
    (width != 1920 && height != 1080)
    && ((width == 1280 && height == 720) || HasFlag(vidflags, XC_VIDEO_FLAGS_HDTV_480p))
  }

  /** The screen surface a mode sets: its flags, size, pitch and format. */
  datatype Surface = Surface(flags: bv32, w: int, h: int, pitch: u16, format: PixelFormat)

  /** What setting a mode leaves: the presentation flag when it got that far,
      and the surface, None for the NULL result. */
  datatype ModeSet = ModeSet(progressive: Option<bool>, surface: Option<Surface>)

  /** Setting a video mode: an unsupported depth is refused before anything
      else; then the presentation flag is chosen; a failure to reallocate the
      surface's format or to create the texture gives NULL; otherwise the
      surface is full-screen and hardware, keeps the requested double-buffer
      and hardware-palette flags, has the requested size, and a pitch of the
      width times the served bytes per pixel, kept in the surface's 16-bit
      pitch field. */
  function SetVideoMode(width: int, height: int, bpp: int, flags: bv32, vidflags: bv32, formatOk: bool, textureOk: bool): (r: ModeSet)
    ensures ServedDepth(bpp).None? ==> r == ModeSet(None, None)
    ensures ServedDepth(bpp).Some? ==> r.progressive == Some(Progressive(width, height, vidflags))
    ensures r.surface.Some? <==> ServedDepth(bpp).Some? && formatOk && textureOk
    ensures r.surface.Some? ==>
              var s := r.surface.value;
              var d := ServedDepth(bpp).value;
              s.w == width && s.h == height && s.format == ModeFormat(d)
              && s.pitch == U16(width * (d / 8))
              && s.flags & (SDL_FULLSCREEN | SDL_HWSURFACE) == SDL_FULLSCREEN | SDL_HWSURFACE
              && s.flags & SDL_DOUBLEBUF == flags & SDL_DOUBLEBUF
              && s.flags & SDL_HWPALETTE == flags & SDL_HWPALETTE
              && s.flags & !(SDL_FULLSCREEN | SDL_HWSURFACE | SDL_DOUBLEBUF | SDL_HWPALETTE) == 0
  {
    match ServedDepth(bpp)
    case None => ModeSet(None, None)
    case Some(d) =>
      var progressive := Progressive(width, height, vidflags);
      if !formatOk || !textureOk then ModeSet(Some(progressive), None)
      else
        var f0 := SDL_FULLSCREEN | SDL_HWSURFACE;
        var f1 := if flags & SDL_DOUBLEBUF != 0 then f0 | SDL_DOUBLEBUF else f0;
        var f2 := if flags & SDL_HWPALETTE != 0 then f1 | SDL_HWPALETTE else f1;
        SurfaceFlagsKept(flags, f0, f1, f2);
        ModeSet(Some(progressive), Some(Surface(f2, width, height, U16(width * (d / 8)), ModeFormat(d))))
  }

  /** The surface flags keep exactly the requested double-buffer and
      hardware-palette bits on top of full-screen and hardware. */
  lemma SurfaceFlagsKept(flags: bv32, f0: bv32, f1: bv32, f2: bv32)
    requires f0 == SDL_FULLSCREEN | SDL_HWSURFACE
    requires f1 == if flags & SDL_DOUBLEBUF != 0 then f0 | SDL_DOUBLEBUF else f0
    requires f2 == if flags & SDL_HWPALETTE != 0 then f1 | SDL_HWPALETTE else f1
    ensures f2 & (SDL_FULLSCREEN | SDL_HWSURFACE) == SDL_FULLSCREEN | SDL_HWSURFACE
    ensures f2 & SDL_DOUBLEBUF == flags & SDL_DOUBLEBUF && f2 & SDL_HWPALETTE == flags & SDL_HWPALETTE
    ensures f2 & !(SDL_FULLSCREEN | SDL_HWSURFACE | SDL_DOUBLEBUF | SDL_HWPALETTE) == 0
  {
  }

  /** For every listed mode, the pitch is the exact row size: two or four
      bytes per pixel of the width, with no wrap in the 16-bit field. */
  lemma ListedModePitchExact(m: Rect, vidflags: bv32, standard: nat, bpp: int, flags: bv32)
    requires m in ExpectedModes(vidflags, standard)
    requires ServedDepth(bpp).Some?
    ensures var r := SetVideoMode(m.w, m.h, bpp, flags, vidflags, true, true);
            r.surface.Some? && r.surface.value.pitch == m.w * (if bpp <= 16 then 2 else 4)
  {
    assert m.w <= 1920;
  }

  /** Presentation of the listed modes: 1080i is always interlaced, 720p is
      always progressive, and any other mode follows the 480p flag. */
  lemma ListedModePresentation(m: Rect, vidflags: bv32, standard: nat)
    requires m in ExpectedModes(vidflags, standard)
    ensures m == RECT_1920x1080 ==> !Progressive(m.w, m.h, vidflags)
    ensures m == RECT_1280x720 ==> Progressive(m.w, m.h, vidflags)
    ensures m != RECT_1920x1080 && m != RECT_1280x720 ==>
              (Progressive(m.w, m.h, vidflags) <==> HasFlag(vidflags, XC_VIDEO_FLAGS_HDTV_480p))
  {
  }

  // ------------------------------------------------------------ init

  /** The format video initialisation reports: 32 bits in 4 bytes, with alpha. */
  const DisplayFormat: PixelFormat := PixelFormat(32, 4, 0x00FF_0000, 0x0000_FF00, 0x0000_00FF, 0xFF00_0000)

  /** What video initialisation leaves: its status (1 on success, 0 on
      failure), the reported format when it got that far, whether the
      presentation is progressive, the refresh rate (0 when not set), and the
      mode list. */
  datatype VideoInitResult = VideoInitResult(status: int, format: Option<PixelFormat>, progressive: bool,
                                             refreshRate: nat, table: ModeTable)

  /** Video initialisation: the mode list is built first and a build that
      does not return a positive count fails the call with 0; otherwise the
      presentation is progressive exactly under the 480p flag, a PAL console
      gets 60 Hz under the PAL-60 flag and 50 Hz otherwise, the display format
      is reported, and the status is 1 exactly when the Direct3D device exists. */
  function VideoInit(table: ModeTable, mallocOk: bool, vidflags: bv32, standard: nat, deviceOk: bool): (r: VideoInitResult)
    ensures r.table == BuildModesList(table, mallocOk, vidflags, standard).1
    ensures r.status == 1 <==> table.NoTable? && mallocOk && deviceOk
    ensures r.status == 0 <==> !(table.NoTable? && mallocOk && deviceOk)
    ensures r.format.Some? <==> table.NoTable? && mallocOk
    ensures r.format.Some? ==> r.format.value == DisplayFormat
    ensures r.format.Some? ==> (r.progressive <==> HasFlag(vidflags, XC_VIDEO_FLAGS_HDTV_480p))
    ensures r.format.Some? ==>
              r.refreshRate == if standard != XC_VIDEO_STANDARD_PAL_I then 0
                               else if HasFlag(vidflags, XC_VIDEO_FLAGS_PAL_60Hz) then 60 else 50
  {
    var (count, t) := BuildModesList(table, mallocOk, vidflags, standard);
    if count <= 0 then VideoInitResult(0, None, false, 0, t)
    else
      var progressive := HasFlag(vidflags, XC_VIDEO_FLAGS_HDTV_480p);
      var refresh := if standard == XC_VIDEO_STANDARD_PAL_I then
                       (if HasFlag(vidflags, XC_VIDEO_FLAGS_PAL_60Hz) then 60 else 50)
                     else 0;
      VideoInitResult(if deviceOk then 1 else 0, Some(DisplayFormat), progressive, refresh, t)
  }

  /** The display format's four masks split the 32-bit pixel into bytes. */
  lemma DisplayMasksPartitionPixel()
    ensures DisplayFormat.amask & DisplayFormat.rmask == 0 && DisplayFormat.rmask & DisplayFormat.gmask == 0
    ensures DisplayFormat.gmask & DisplayFormat.bmask == 0
    ensures DisplayFormat.amask | DisplayFormat.rmask | DisplayFormat.gmask | DisplayFormat.bmask == 0xFFFF_FFFF
    ensures DisplayFormat.bytesPerPixel * 8 == DisplayFormat.bitsPerPixel
  {
  }
}
