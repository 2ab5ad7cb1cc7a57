/** The directive timeline of `AutoMusicVideoGenerator` (auto_music_video.py):
    every formatted lyric line gets a start and end time on the beat grid, an
    alternating anchor, an emphasis flag with its colour from the video's
    palette, an energy value and an animation style. */
module Generator {
  import opened PyStr
  import opened Timing
  import opened Colors
  import opened Wrappers

  /** `MusicAnalysis`; how it is computed from the audio is not modelled. */
  datatype MusicAnalysis = MusicAnalysis(
    tempo: real,
    beats: seq<real>,
    vocals: seq<real>,
    energy: seq<real>,
    duration: real,
    genreHint: string)

  datatype LyricLine = LyricLine(
    rawText: string,
    processedText: string,
    words: seq<string>,
    start: real,
    end: real,
    emphasis: bool,
    anchor: string,
    color: string)

  datatype AnimationDirective = AnimationDirective(line: LyricLine, animationStyle: string, intensity: real)

  datatype ColorPalette = ColorPalette(primary: string, secondary: string, accent: string)

  /** The mean colour of the image the library opens at the video path, scaled
      to 8x8; computing it is not modelled, and neither is a failing read. */
  datatype FrameAverage = FrameAverage(r: real, g: real, b: real)

  /** The palette used when the image library or the video file is missing. */
  const FallbackPalette: ColorPalette := ColorPalette("#d5c4a1", "#83a598", "#fb4934")

  predicate WellFormedPalette(p: ColorPalette) {
    IsHexColor(p.primary) && IsHexColor(p.secondary) && IsHexColor(p.accent)
  }

  /** The palette `_extract_palette` derives from a frame average: the average
      itself, a darker shade (red and green at 80 %, blue at 90 %), and the
      complement as accent. */
  function PaletteFromAverage(avg: FrameAverage): (p: ColorPalette)
    ensures WellFormedPalette(p)
  {
    ColorPalette(
      RgbToHex(avg.r, avg.g, avg.b),
      RgbToHex(avg.r * 0.8, avg.g * 0.8, avg.b * 0.9),
      RgbToHex(Complement(avg).r, Complement(avg).g, Complement(avg).b))
  }

  /** `(255 - avg[0], 255 - avg[1], 255 - avg[2])` */
  function Complement(avg: FrameAverage): (c: FrameAverage)
    ensures c.r + avg.r == 255.0 && c.g + avg.g == 255.0 && c.b + avg.b == 255.0
  {
    FrameAverage(255.0 - avg.r, 255.0 - avg.g, 255.0 - avg.b)
  }

  /** The palette computed on a cache miss: from the frame average when there is
      one, otherwise the fallback. */
  function FreshPalette(frame: Option<FrameAverage>): (p: ColorPalette)
    ensures WellFormedPalette(p)
  {
    FallbackPaletteWellFormed();
    match frame
    case None => FallbackPalette
    case Some(avg) => PaletteFromAverage(avg)
  }

  lemma FallbackPaletteWellFormed()
    ensures WellFormedPalette(FallbackPalette)
  {
  }

  /** The primary colour decodes to the clamped frame average. */
  lemma PrimaryDecodes(avg: FrameAverage)
    ensures HexToRgb(PaletteFromAverage(avg).primary) ==
      Some(Rgb(ClampChannel(avg.r), ClampChannel(avg.g), ClampChannel(avg.b)))
  {
    HexRoundTrip(avg.r, avg.g, avg.b);
  }

  /** The accent decodes to the complement of the frame average, channel by
      channel, as far as clamping to [0, 255] allows. */
  lemma AccentDecodes(avg: FrameAverage)
    ensures var c := Complement(avg);
      HexToRgb(PaletteFromAverage(avg).accent) == Some(Rgb(ClampChannel(c.r), ClampChannel(c.g), ClampChannel(c.b)))
  {
    var c := Complement(avg);
    HexRoundTrip(c.r, c.g, c.b);
  }

  /** `_pick_color`: the accent for emphasised lines, the primary otherwise. */
  function PickColor(palette: ColorPalette, emphasis: bool): (c: string)
    ensures c == palette.accent || c == palette.primary
    ensures WellFormedPalette(palette) ==> IsHexColor(c)
  {
    if emphasis then palette.accent else palette.primary
  }

  /** `lines.count(line)` */
  function Count(lines: seq<string>, line: string): (n: nat)
    ensures n <= |lines|
    ensures n == 0 <==> line !in lines
  {
    if lines == [] then 0 else (if lines[0] == line then 1 else 0) + Count(lines[1..], line)
  }

  /** A line occurs more than once exactly when another index holds the same
      text. */
  lemma {:induction false} CountRepeated(lines: seq<string>, i: nat)
    requires i < |lines|
    ensures Count(lines, lines[i]) >= 1
    ensures Count(lines, lines[i]) > 1 <==> exists j :: 0 <= j < |lines| && j != i && lines[j] == lines[i]
  {
    if i == 0 {
      CountZero(lines[1..], lines[0]);
      if Count(lines[1..], lines[0]) > 0 {
        var j :| 0 <= j < |lines| - 1 && lines[1..][j] == lines[0];
        assert lines[j + 1] == lines[0];
      }
      if exists j :: 0 <= j < |lines| && j != 0 && lines[j] == lines[0] {
        var j :| 0 <= j < |lines| && j != 0 && lines[j] == lines[0];
        assert lines[1..][j - 1] == lines[0];
      }
    } else {
      CountRepeated(lines[1..], i - 1);
      assert lines[1..][i - 1] == lines[i];
      if Count(lines, lines[i]) > 1 {
        if lines[0] == lines[i] {
          assert 0 != i;
        } else {
          var j :| 0 <= j < |lines| - 1 && j != i - 1 && lines[1..][j] == lines[i];
          assert lines[j + 1] == lines[i];
        }
      }
      if exists j :: 0 <= j < |lines| && j != i && lines[j] == lines[i] {
        var j :| 0 <= j < |lines| && j != i && lines[j] == lines[i];
        if j > 0 {
          assert lines[1..][j - 1] == lines[i];
        }
      }
    }
  }

  /** A line that does not occur is counted zero times, and the other way round. */
  lemma {:induction false} CountZero(lines: seq<string>, line: string)
    ensures Count(lines, line) == 0 <==> forall j :: 0 <= j < |lines| ==> lines[j] != line
  {
    if lines != [] {
      CountZero(lines[1..], line);
      assert forall j :: 1 <= j < |lines| ==> lines[j] == lines[1..][j - 1];
    }
  }

  // ---------------------------------------------------------------------------
  // Timing of one line

  /** `analysis.beats or [0.0, analysis.duration]` */
  function Grid(analysis: MusicAnalysis): (grid: seq<real>)
    ensures |grid| >= 1
  {
    if analysis.beats == [] then [0.0, analysis.duration] else analysis.beats
  }

  /** `auto_generate_animations` divides by the tempo only when the beat list
      has a single beat. */
  predicate CanSpace(analysis: MusicAnalysis) {
    |analysis.beats| == 1 ==> analysis.tempo != 0.0
  }

  /** `beat_interval`: the first gap of the grid, or `60 / tempo` for a grid of
      one beat. */
  function BeatSpacing(analysis: MusicAnalysis): (spacing: real)
    requires CanSpace(analysis)
    ensures analysis.beats == [] ==> spacing == analysis.duration
    ensures |analysis.beats| == 1 ==> spacing == 60.0 / analysis.tempo
    ensures |analysis.beats| > 1 ==> spacing == analysis.beats[1] - analysis.beats[0]
  {
    var grid := Grid(analysis);
    if |grid| > 1 then grid[1] - grid[0] else BeatInterval(analysis.tempo)
  }

  /** `max(beat_interval * 2, beat_interval * len(line.split()) * 0.6)`, for a
      line of `wordCount` words. */
  function LineDuration(spacing: real, wordCount: nat): (d: real)
    ensures d >= spacing * 2.0
    ensures d >= spacing * wordCount as real * 0.6
    ensures d == spacing * 2.0 || d == spacing * wordCount as real * 0.6
  {
    var byWords := spacing * wordCount as real * 0.6;
    if spacing * 2.0 >= byWords then spacing * 2.0 else byWords
  }

  /** On a forward grid a line of up to three words lasts exactly two beats,
      and a longer one 0.6 beats per word. */
  lemma LineDurationByWords(spacing: real, wordCount: nat)
    requires spacing >= 0.0
    ensures LineDuration(spacing, wordCount) >= 0.0
    ensures wordCount <= 3 ==> LineDuration(spacing, wordCount) == spacing * 2.0
    ensures wordCount >= 4 ==> LineDuration(spacing, wordCount) == spacing * wordCount as real * 0.6
  {
    var n := wordCount as real;
    if wordCount <= 3 {
      assert n * 0.6 <= 2.0;
      MulLe(spacing, n * 0.6, 2.0);
    } else {
      assert n * 0.6 >= 2.4;
      MulLe(spacing, 2.0, n * 0.6);
    }
  }

  lemma MulLe(k: real, a: real, b: real)
    requires k >= 0.0 && a <= b
    ensures k * a <= k * b
  {
  }

  /** What `auto_generate_animations` promises about directive `i`. */
  ghost predicate DirectedAt(ds: seq<AnimationDirective>, i: nat, lines: seq<string>,
                             analysis: MusicAnalysis, palette: ColorPalette)
    requires i < |ds| && i < |lines| && CanSpace(analysis)
  {
    DirectiveFor(ds[i], i, if i == 0 then 0.0 else ds[i - 1].line.end, lines, analysis, palette)
  }

  /** Directive `d` is the one for line `i` when the line above ended at
      `previousEnd`. */
  ghost predicate DirectiveFor(d: AnimationDirective, i: nat, previousEnd: real, lines: seq<string>,
                               analysis: MusicAnalysis, palette: ColorPalette)
    requires i < |lines| && CanSpace(analysis)
  {
    var line, grid := lines[i], Grid(analysis);
    && d.line.rawText == line && d.line.processedText == line
    && d.line.words == Words(line)
    // the grid time while there is one, then right after the previous line
    && d.line.start == (if i < |grid| then grid[i] else previousEnd)
    && d.line.end == d.line.start + LineDuration(BeatSpacing(analysis), |Words(line)|)
    && d.line.emphasis == (Count(lines, line) > 1)
    && d.line.anchor == (if i % 2 == 0 then "center" else "bottom")
    && d.line.color == PickColor(palette, d.line.emphasis)
    && d.intensity == CycleAt(analysis.energy, i)
    && d.animationStyle == PickAnimationStyle(analysis.genreHint, d.intensity)
  }

  /** One directive per line, in order, each as `DirectedAt` says. */
  ghost predicate Directed(ds: seq<AnimationDirective>, lines: seq<string>,
                           analysis: MusicAnalysis, palette: ColorPalette)
    requires CanSpace(analysis)
  {
    |ds| == |lines| && forall i :: 0 <= i < |ds| ==> DirectedAt(ds, i, lines, analysis, palette)
  }

  /** On a grid that never goes backwards and with a non-negative beat spacing,
      every line ends no earlier than it starts and no line starts before the
      one above it. */
  lemma DirectedTimeline(ds: seq<AnimationDirective>, lines: seq<string>,
                         analysis: MusicAnalysis, palette: ColorPalette)
    requires CanSpace(analysis) && Directed(ds, lines, analysis, palette)
    requires forall k, l :: 0 <= k && l == k + 1 && l < |Grid(analysis)| ==> Grid(analysis)[k] <= Grid(analysis)[l]
    requires BeatSpacing(analysis) >= 0.0
    ensures forall i :: 0 <= i < |ds| ==> ds[i].line.start <= ds[i].line.end
    ensures forall i, j :: 0 <= i && j == i + 1 && j < |ds| ==> ds[i].line.start <= ds[j].line.start
  {
    var grid, spacing := Grid(analysis), BeatSpacing(analysis);
    forall i | 0 <= i < |ds| ensures ds[i].line.start <= ds[i].line.end {
      assert DirectedAt(ds, i, lines, analysis, palette);
      assert ds[i].line.end == ds[i].line.start + LineDuration(spacing, |Words(lines[i])|);
    }
    forall i, j | 0 <= i && j == i + 1 && j < |ds| ensures ds[i].line.start <= ds[j].line.start {
      assert DirectedAt(ds, i, lines, analysis, palette);
      assert DirectiveFor(ds[j], j, ds[i].line.end, lines, analysis, palette) by {
        assert DirectedAt(ds, j, lines, analysis, palette);
      }
      assert ds[i].line.start <= ds[i].line.end by {
        assert ds[i].line.end == ds[i].line.start + LineDuration(spacing, |Words(lines[i])|);
      }
      if j < |grid| {
        assert ds[i].line.start == grid[i] && ds[j].line.start == grid[j];
      }
    }
  }

  /** A grid laid out by `_distribute_beats` at a positive tempo never goes
      backwards, and neither does the two-point fallback for a non-negative
      duration. */
  lemma DistributedGridSorted(analysis: MusicAnalysis)
    requires analysis.tempo > 0.0 && analysis.duration >= 0.0
    requires analysis.beats == DistributeBeats(analysis.duration, analysis.tempo)
    ensures forall k, l :: 0 <= k && l == k + 1 && l < |Grid(analysis)| ==> Grid(analysis)[k] <= Grid(analysis)[l]
  {
    if analysis.duration > 0.0 {
      BeatsIncrease(analysis.duration, analysis.tempo);
    }
  }

  /** Repeated lines, and only they, are emphasised and take the accent colour;
      equal lines are treated alike. */
  lemma DirectedEmphasis(ds: seq<AnimationDirective>, lines: seq<string>,
                         analysis: MusicAnalysis, palette: ColorPalette, i: nat)
    requires CanSpace(analysis) && Directed(ds, lines, analysis, palette) && i < |ds|
    ensures ds[i].line.emphasis <==> exists j :: 0 <= j < |lines| && j != i && lines[j] == lines[i]
    ensures ds[i].line.color == (if ds[i].line.emphasis then palette.accent else palette.primary)
    ensures forall j :: 0 <= j < |ds| && lines[j] == lines[i] ==>
      ds[j].line.emphasis == ds[i].line.emphasis && ds[j].line.color == ds[i].line.color
  {
    assert DirectedAt(ds, i, lines, analysis, palette);
    CountRepeated(lines, i);
    forall j | 0 <= j < |ds| && lines[j] == lines[i]
      ensures ds[j].line.emphasis == ds[i].line.emphasis && ds[j].line.color == ds[i].line.color
    {
      assert DirectedAt(ds, j, lines, analysis, palette);
    }
  }

  // ---------------------------------------------------------------------------
  // The generator object

  /** `AutoMusicVideoGenerator`: its only state is the palette cache, keyed by
      video path. */
  class AutoMusicVideoGenerator {
    var paletteCache: map<string, ColorPalette>

    /** Every cached palette holds three `#rrggbb` colours. */
    ghost predicate Valid()
      reads this
    {
      forall path :: path in paletteCache ==> WellFormedPalette(paletteCache[path])
    }

    constructor()
      ensures paletteCache == map[]
      ensures Valid()
    {
      paletteCache := map[];
    }

    /** `_extract_palette(video_path)`. A cached path returns its palette and
        leaves the cache alone; otherwise the palette is computed from `frame`
        (the frame average, or `None` when the image library or the file is
        missing) and cached. */
    method ExtractPalette(videoPath: string, frame: Option<FrameAverage>) returns (palette: ColorPalette)
      requires Valid()
      modifies this
      ensures Valid()
      ensures palette == (if videoPath in old(paletteCache) then old(paletteCache)[videoPath] else FreshPalette(frame))
      ensures paletteCache == old(paletteCache)[videoPath := palette]
      ensures WellFormedPalette(palette)
    {
      if videoPath in paletteCache {
        palette := paletteCache[videoPath];
        return;
      }
      palette := FreshPalette(frame);
      paletteCache := paletteCache[videoPath := palette];
    }

    /** `auto_generate_animations(lines, analysis, video_path)`, with `frame`
        standing for what the image library would read from the video. */
    method AutoGenerateAnimations(lines: seq<string>, analysis: MusicAnalysis, videoPath: string,
                                  frame: Option<FrameAverage>)
      returns (directives: seq<AnimationDirective>)
      requires Valid() && CanSpace(analysis)
      modifies this
      ensures Valid() && videoPath in paletteCache
      ensures paletteCache == old(paletteCache)[videoPath := paletteCache[videoPath]]
      ensures paletteCache[videoPath] ==
        (if videoPath in old(paletteCache) then old(paletteCache)[videoPath] else FreshPalette(frame))
      ensures Directed(directives, lines, analysis, paletteCache[videoPath])
    {
      var beats := Grid(analysis);
      var beatInterval := BeatSpacing(analysis);
      var palette := ExtractPalette(videoPath, frame);
      directives := [];
      var cursor := 0.0;
      var energy := LoopValues(analysis.energy, |lines|);
      var idx := 0;
      while idx < |lines|
        invariant idx <= |lines| && |directives| == idx
        invariant cursor == if idx == 0 then 0.0 else directives[idx - 1].line.end
        invariant forall i :: 0 <= i < idx ==> DirectedAt(directives, i, lines, analysis, palette)
        modifies {}
      {
        var line := lines[idx];
        var duration := LineDuration(beatInterval, |Words(line)|);
        var start := if idx < |beats| then beats[idx] else cursor;
        var end := start + duration;
        var emphasis := Count(lines, line) > 1;
        var anchor := if idx % 2 == 0 then "center" else "bottom";
        var color := PickColor(palette, emphasis);
        var lyricLine := LyricLine(line, line, Words(line), start, end, emphasis, anchor, color);
        var intensity := energy[idx];
        var style := PickAnimationStyle(analysis.genreHint, intensity);
        var directive := AnimationDirective(lyricLine, style, intensity);
        assert DirectiveFor(directive, idx, cursor, lines, analysis, palette);
        AppendKeepsDirected(directives, directive, lines, analysis, palette);
        directives := directives + [directive];
        cursor := end;
        idx := idx + 1;
      }
    }
  }

  /** Appending the directive for the next line extends what was promised. */
  lemma AppendKeepsDirected(ds: seq<AnimationDirective>, d: AnimationDirective, lines: seq<string>,
                            analysis: MusicAnalysis, palette: ColorPalette)
    requires CanSpace(analysis) && |ds| < |lines|
    requires forall i :: 0 <= i < |ds| ==> DirectedAt(ds, i, lines, analysis, palette)
    requires DirectiveFor(d, |ds|, if |ds| == 0 then 0.0 else ds[|ds| - 1].line.end, lines, analysis, palette)
    ensures forall i :: 0 <= i <= |ds| ==> DirectedAt(ds + [d], i, lines, analysis, palette)
  {
    forall i | 0 <= i <= |ds| ensures DirectedAt(ds + [d], i, lines, analysis, palette) {
      assert (ds + [d])[i] == if i < |ds| then ds[i] else d;
      if i > 0 {
        assert (ds + [d])[i - 1] == ds[i - 1];
      }
      if i < |ds| {
        assert DirectedAt(ds, i, lines, analysis, palette);
      }
    }
  }
}
