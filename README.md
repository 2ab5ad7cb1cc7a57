# Persian lyric video generator — a Dafny model

This project models the deterministic core of a Persian lyric-video toolkit
written in Python, and proves properties of that model.

- **Lyric formatting** (`auto_music_video.py`). Each lyric line is stripped and
  blank lines are dropped. A line longer than 32 characters is packed greedily
  into word buckets. A line holding a character of the Arabic block
  (U+0600–U+06FF) is reversed into right-to-left display order.
- **Beat grid and lookup tables** (`auto_music_video.py`). These are the evenly
  spaced beat grid, the tempo→genre table, the genre×intensity→style table and
  the cyclic energy stream.
- **Hex colours and the palette cache** (`auto_music_video.py`). `#rrggbb`
  formatting and parsing, and the memoised per-video palette.
- **The directive timeline** (`auto_music_video.py`). Each formatted line gets
  one directive. It holds the line's start and end time, an alternating
  anchor, an emphasis flag, a colour, an intensity and a style.
- **Trim and volume selection** (`src/video_processor.py`). A processor object
  whose setters validate before they assign, and otherwise raise.
- **TLS sniffing in the development server** (`dev_server.py`). A request line
  starting like a TLS record (`16 03`, section 5.1 of RFC 8446) or like the
  legacy probe `00 02 01 00` is dropped quietly. An unknown method gets 501
  (section 15.6.2 of RFC 9110).
- **Animated text preparation** (`src/text_animator.py`). Entries are mapped
  one to one with the reshaped content. Typewriter frames are the non-empty
  prefixes of the display text.

## How the source is represented

- Python floats are exact `real`s and Python `int()` on a float is truncation
  toward zero (`PyNum.Trunc`). `str.split()` and `str.strip()` cut on the
  `str.isspace()` characters (`PyStr`). Strings are `seq<char>` and byte
  strings are `seq<byte>`.
- Code that updates state in the source is a class or a loop here:
  - `VideoProcessor` with its `VideoSelection`;
  - the palette cache of `AutoMusicVideoGenerator`;
  - the handler's `raw_requestline` and `close_connection`;
  - the loops of `_auto_break_line`, `auto_format_persian_lyrics`,
    `auto_generate_animations`, `_loop_values` and `build_animated_sequence`.
- Each loop is proved against a specification function or predicate. The
  properties are lemmas about that function. For example, `Lyrics.AutoBreakLine`
  returns `Lyrics.BreakLine(line, maxChars)`. `Lyrics.Pack` is the greedy loop
  written as a recursive function, and the `Pack*` and `BreakLine*` lemmas
  state what it guarantees.
- Inputs from code the model cannot see are parameters:
  - the socket read and `parse_request` (`DevServer.ReadResult`, `DevServer.ParseResult`);
  - `path.exists()` (`pathExists`);
  - the average colour the image library computes (`Generator.FrameAverage`,
    `None` when the library or the file is missing);
  - `reshape_text` (a function-valued constant of `PersianTextAnimator`).
- `_auto_break_line` runs its width test on the empty first bucket too. So
  when the first word alone is longer than the limit, an empty line comes out
  first. The model keeps this, and `Lyrics.BreakLinePacked` states exactly
  when it happens.
- The server's `handle_one_request` replaces the standard library's. It reads
  up to 65537 bytes and has no special case for an over-long request line.
  The model follows the override.

## Model

| member | source | states |
|---|---|---|
| `PyStr.Words` | auto_music_video.py:205 | `line.split()` yields only non-empty runs without whitespace |
| `PyStr.Strip` | auto_music_video.py:197 | `line.strip()` leaves no whitespace at either end |
| `PyStr.WordsOfJoin` | auto_music_video.py:210 | splitting `" ".join(bucket)` gives back the bucket's words |
| `PyStr.JoinLength` | auto_music_video.py:209-210 | a joined bucket is `sum(len) + len - 1` characters long, which is the quantity the width test adds to |
| `PyStr.WordsStrip` | auto_music_video.py:196-198 | stripping keeps the words, and a line strips to `""` exactly when it has no words |
| `Lyrics.IsPersian` | auto_music_video.py:223-224 | the left-to-right scan for an Arabic-block character; `IsPersianAt` proves it equals the existential search |
| `Lyrics.ApplyRtl` | auto_music_video.py:218-221 | keeps the length; `ApplyRtlInvolution` proves it reverses exactly the Persian lines and undoes itself |
| `Lyrics.Pack` | auto_music_video.py:205-215 | the greedy bucket loop emits nothing exactly when there is no word and no open bucket, and at most one bucket per word plus one; `PackFlatten`, `PackFits`, `PackNonEmpty` and `PackGreedy` state its guarantees |
| `Lyrics.IsPersianAt` | auto_music_video.py:223-224 | `_is_persian` holds exactly when some character is in U+0600–U+06FF |
| `Lyrics.ApplyRtlInvolution` | auto_music_video.py:218-221 | `_apply_rtl` reverses exactly the Persian lines, keeps whether a line is Persian, and undoes itself |
| `Lyrics.PackFlatten` | auto_music_video.py:205-215 | the emitted buckets, concatenated, are the words in order: none lost, duplicated or reordered |
| `Lyrics.PackFits` | auto_music_video.py:208-213 | every emitted bucket is empty, a single word, or joins to at most `max_chars` characters |
| `Lyrics.PackNonEmpty` | auto_music_video.py:209-215 | once a word is in the bucket, every later bucket is non-empty and the next one starts with that word |
| `Lyrics.PackGreedy` | auto_music_video.py:209-211 | each bucket was closed only because the next word would have pushed it past `max_chars` |
| `Lyrics.BreakLine` | auto_music_video.py:202-216 | a short line gives exactly one line; no lines come out exactly when a long line has no words; `BreakLineKeepsWords`, `BreakLineFits` and `BreakLinePacked` state the rest |
| `Lyrics.AutoBreakLine` | auto_music_video.py:202-216 | the loop computes `BreakLine`: one flipped line for a short line, otherwise the flipped, space-joined greedy buckets |
| `Lyrics.BreakLineKeepsWords` | auto_music_video.py:202-216 | un-flipping the output lines and splitting them gives `line.split()` in order |
| `Lyrics.BreakLineFits` | auto_music_video.py:202-216 | every output line has at most `max_chars` characters or is one unbreakable word |
| `Lyrics.BreakLinePacked` | auto_music_video.py:205-216 | for a long line, every logical line is normalised and full (the next line's first word did not fit after it); only the first can be empty, and it is empty exactly when the first word exceeds `max_chars` |
| `Lyrics.FormatLyrics` | auto_music_video.py:193-200 | the loop computes `FormatLines`: stripped, non-blank lines broken one after another |
| `Lyrics.FormatLines` | auto_music_video.py:193-200 | the lyrics format to nothing exactly when every line is blank; `FormatLinesKeepsWords` and `FormatLinesFit` state the rest |
| `Lyrics.FormatLinesKeepsWords` | auto_music_video.py:193-200 | the formatted lyrics, un-flipped and split, hold every word of the file in order |
| `Lyrics.FormatLinesFit` | auto_music_video.py:196-199 | every formatted line fits in 32 characters or is one unbreakable word |
| `PyNum.Trunc` | auto_music_video.py:168 | `int()` on a float lands within one of the value, toward zero |
| `PyNum.Round2Close` | auto_music_video.py:169 | rounding to two decimals moves a value by at most 0.005 |
| `PyNum.Round2Monotone` | auto_music_video.py:169 | rounding keeps order, and values 0.01 or more apart stay strictly ordered |
| `Timing.BeatCount` | auto_music_video.py:168 | at least one beat is laid out |
| `Timing.DistributeBeats` | auto_music_video.py:164-169 | no beats exactly for a non-positive duration, otherwise `BeatCount` beats starting at 0; `BeatsOnGrid` and `BeatsIncrease` place them |
| `Timing.BeatCountFits` | auto_music_video.py:164-169 | the count is the largest number of whole intervals within the duration, but at least one |
| `Timing.BeatsOnGrid` | auto_music_video.py:164-169 | there are `BeatCount` beats, the first is 0, and beat `i` is within 0.005 of `i * 60 / tempo` |
| `Timing.TieRoundsUp` | auto_music_video.py:164-169 | at tempo 480 over a quarter second the grid is `[0.0, 0.13]`: the exact tie at 0.125 rounds up in the model |
| `Timing.BeatAtIncreases` | auto_music_video.py:169 | a later grid index never gives an earlier beat, and with an interval of at least 0.01 s it gives a later one |
| `Timing.BeatsIncrease` | auto_music_video.py:164-169 | the grid never goes backwards, and up to 6000 beats per minute it strictly increases |
| `Timing.GenreFromTempo` | auto_music_video.py:183-190 | the genre is one of the four names; `GenreBands` and `GenreMonotone` give its bands |
| `Timing.GenreBands` | auto_music_video.py:183-190 | the genre table is total onto four genres, with strict thresholds at 130, 110 and 90 |
| `Timing.GenreMonotone` | auto_music_video.py:183-190 | a faster tempo never gives a slower genre |
| `Timing.PickAnimationStyle` | auto_music_video.py:270-277 | the style is one of the seven names; `StyleTable` and `StyleMonotone` read it back |
| `Timing.StyleTable` | auto_music_video.py:270-277 | each style names its genre and side of the threshold (0.6 for electronic, 0.5 for pop and rnb); every other genre gets slow-fade |
| `Timing.StyleMonotone` | auto_music_video.py:270-277 | a more intense line never gets its genre's calmer style |
| `Timing.CycleAt` | auto_music_video.py:260-268 | value `k` of the energy stream is 0.5 without values and otherwise one of the values; `CycleAtPeriodic` proves the period |
| `Timing.CycleAtPeriodic` | auto_music_video.py:260-268 | the energy stream repeats with the period of its values, starts with them and yields only them |
| `Timing.LoopValues` | auto_music_video.py:260-268 | the counter loop yields `length` values: `values[k % len]`, or 0.5 throughout when there are none |
| `Colors.ClampChannel` | auto_music_video.py:300 | a channel is clamped to [0, 255] and truncated |
| `Colors.RgbToHex` | auto_music_video.py:299-300 | the output is `#` followed by six lowercase hex digits |
| `Colors.ParseHexField` | auto_music_video.py:368 | `int(field, 16)` on a two-character field is within ±255 when it succeeds; it skips the blanks the integer parser skips, a sign may lead, and a digit must follow |
| `Colors.IntStrip` | auto_music_video.py:368 | the blanks `int()` skips around the digits, the `str.isspace()` characters except U+001C–U+001F, are removed: the result neither starts nor ends with one and never grows |
| `Colors.IntStripCutsBlanks` | auto_music_video.py:368 | the stripped text is one contiguous run of the field, and every character cut before or after it is such a blank |
| `Colors.SeparatorIsNotBlank` | auto_music_video.py:368 | a space before a digit is skipped, but a field padded with U+001C fails to parse |
| `Colors.SeparatorColorFails` | auto_music_video.py:366-368 | the colour `#\x1c1\x1c2\x1c3` is rejected |
| `Colors.HexToRgb` | auto_music_video.py:366-368 | `_hex_to_rgb_tuple` yields channels within ±255 when it does not raise; `HexRoundTrip` and `HexColorRoundTrip` pin them |
| `Colors.HexRoundTrip` | auto_music_video.py:366-368 | parsing `_rgb_to_hex` output gives back the clamped, truncated channels |
| `Colors.HexColorRoundTrip` | auto_music_video.py:366-368 | every lowercase `#rrggbb` parses to channels in [0, 255] that format back to the same string |
| `Generator.PaletteFromAverage` | auto_music_video.py:286-290 | a palette computed from a frame holds three well-formed `#rrggbb` colours |
| `Generator.FreshPalette` | auto_music_video.py:282-292 | a cache miss yields a well-formed palette, either from the frame or the fallback |
| `Generator.FallbackPaletteWellFormed` | auto_music_video.py:292 | the fallback colours are well-formed `#rrggbb` strings |
| `Generator.PrimaryDecodes` | auto_music_video.py:287 | the primary colour decodes to the clamped frame average |
| `Generator.AccentDecodes` | auto_music_video.py:289 | the accent decodes to the clamped complement `255 - avg` of the frame average |
| `Generator.PickColor` | auto_music_video.py:296-297 | the colour is the palette's accent or primary, so it is well-formed |
| `Generator.Count` | auto_music_video.py:241 | `lines.count(line)` is at most the number of lines and is 0 exactly when the line is absent; `CountRepeated` relates it to another index |
| `Generator.CountRepeated` | auto_music_video.py:241 | `lines.count(line) > 1` holds exactly when another index holds the same line |
| `Generator.Grid` | auto_music_video.py:230 | the beat grid (the beats, or `[0, duration]`) is never empty |
| `Generator.BeatSpacing` | auto_music_video.py:230-231 | the spacing is the first gap of the beats, the duration when there are none (the `[0, duration]` grid), and `60 / tempo` for a single beat |
| `Generator.LineDuration` | auto_music_video.py:238 | a line lasts at least two beat intervals and at least 0.6 intervals per word |
| `Generator.LineDurationByWords` | auto_music_video.py:238 | on a forward grid, a line of up to three words lasts exactly two beats, and a longer one 0.6 beats per word |
| `Generator.AutoMusicVideoGenerator.constructor` | auto_music_video.py:99-100 | a new generator has an empty palette cache |
| `Generator.AutoMusicVideoGenerator.ExtractPalette` | auto_music_video.py:279-294 | a cached path returns its palette; otherwise the fresh palette is returned and cached; the cache stays well-formed |
| `Generator.AutoMusicVideoGenerator.AutoGenerateAnimations` | auto_music_video.py:227-258 | one directive per line, in order: the text and its words, start on the grid or at the previous end, end after `LineDuration`, anchor by index parity, emphasis by `count > 1` with accent or primary colour, the cyclic intensity and its style |
| `Generator.DirectedTimeline` | auto_music_video.py:237-257 | on a non-decreasing grid with a non-negative spacing, no line ends before it starts and no line starts before the line above |
| `Generator.DistributedGridSorted` | auto_music_video.py:230 | a grid from `_distribute_beats`, or the two-point fallback, never goes backwards |
| `Generator.DirectedEmphasis` | auto_music_video.py:241-243 | repeated lines, and only they, are emphasised and take the accent; equal lines are treated alike |
| `Video.TrimError` | src/video_processor.py:34-38 | only `ValueError`s are raised by the trim checks |
| `Video.TrimAccepted` | src/video_processor.py:34-38 | a trim is accepted exactly when both times are non-negative and the start does not pass a non-zero end; negative times are reported first; an end of 0 is open-ended |
| `Video.VolumeError` | src/video_processor.py:43-45 | only a `ValueError` is raised by the volume check |
| `Video.VolumeAccepted` | src/video_processor.py:43-45 | a volume is accepted exactly when it lies in [0, 1] |
| `Video.VideoSelection.constructor` | src/video_processor.py:11-16 | a selection holds the four given fields |
| `Video.VideoProcessor.constructor` | src/video_processor.py:22-23 | a fresh processor has no path, start 0, end 0 and volume 1, and satisfies the invariant |
| `Video.VideoProcessor.SelectFile` | src/video_processor.py:26-32 | a missing file raises `FileNotFoundError` with its message and changes nothing; otherwise only the path changes |
| `Video.VideoProcessor.UpdateTrim` | src/video_processor.py:34-41 | a rejected trim raises and changes nothing; an accepted one sets exactly start and end; the invariant is kept |
| `Video.VideoProcessor.SetVolume` | src/video_processor.py:43-47 | a rejected volume raises and changes nothing; an accepted one sets only the volume, so it stays in [0, 1] |
| `DevServer.TlsBytes` | dev_server.py:19-27 | the test holds exactly for inputs starting `16 03` or `00 02 01 00` |
| `DevServer.LooksLikeTlsHandshake` | dev_server.py:19-27 | `startswith` with the two prefixes; `TlsBytes` spells it out byte by byte |
| `DevServer.ShortIsNotTls` | dev_server.py:27 | inputs shorter than two bytes are never taken for TLS |
| `DevServer.TlsPrefixExtends` | dev_server.py:22-27 | any extension of a matching input still matches |
| `DevServer.AnyTlsMinorVersion` | dev_server.py:22-27 | `16 03` followed by any minor version byte matches |
| `DevServer.PrintableIsNotTls` | dev_server.py:19-27 | a line starting with printable ASCII, as a method name does, never matches |
| `DevServer.NoLineNoParse` | dev_server.py:36-45 | a failed read or an empty line ends the request the same way whatever the parser, with no dispatch |
| `DevServer.TlsNeverParsed` | dev_server.py:47-50 | a TLS-looking line is ignored whatever the parser would say |
| `DevServer.DispatchExactly` | dev_server.py:52-62 | a parsed command dispatches to `do_<command>` exactly when the class has it, and gets 501 otherwise |
| `DevServer.PostIsNotImplemented` | dev_server.py:55-58 | on the stock handler class a POST gets 501 and a GET is dispatched to `do_GET` |
| `DevServer.Decide` | dev_server.py:35-62 | a dispatch names one of the class's handlers, and the parser is consulted exactly for a non-empty, non-TLS line; `NoLineNoParse`, `TlsNeverParsed` and `DispatchExactly` state each branch |
| `DevServer.FriendlyHttpRequestHandler.HandleOneRequest` | dev_server.py:35-62 | the outcome is `Decide`'s; the request line is stored; every early exit and every 501 closes the connection |
| `TextAnimator.PersianTextAnimator.constructor` | src/text_animator.py:26-27 | the animator keeps its default font and its reshaping function |
| `TextAnimator.PersianTextAnimator.BuildAnimatedSequence` | src/text_animator.py:37-56 | one entry per input, in order, with content reshaped, an empty font replaced by the default, and the other fields copied |
| `TextAnimator.PersianTextAnimator.TypewriterEffectFrames` | src/text_animator.py:58-62 | there is one frame per character of the reshaped text |
| `TextAnimator.PersianTextAnimator.TypewriterGrows` | src/text_animator.py:58-62 | frame `i` is the prefix of length `i + 1`; each frame adds one character; the last is the whole text; empty text gives no frames |

## Left out

- Music analysis is not modelled: `analyze_music` (librosa and pydub),
  `_estimate_tempo_from_envelope`, `_normalize_curve` and
  `_probe_duration_fallback`. They are floating-point signal processing and
  file access. `MusicAnalysis` is an input.
- Reading the lyrics file and splitting it into lines are not modelled.
  `Lyrics.FormatLyrics` takes the lines.
- `_extract_palette` averages pixels with the image library. That average is
  the input `Generator.FrameAverage`. The model does not distinguish between
  the library being missing and the video file being missing; both give
  `None` and so the fallback palette.
- `Generator.AutoMusicVideoGenerator.ExtractPalette` does not model a failing
  image read. When the library is present and the file exists, the source
  opens the video path as an image, which raises for video containers such as
  `.mp4`. The exception leaves before the cache is written and propagates out
  of `auto_generate_animations`. The model always returns and caches a palette.
- `Generator.AutoMusicVideoGenerator.ExtractPalette` keys the cache by the path
  string. Python keys it by `Path`, which normalises the string, so
  `v/./a.mp4` and `v/a.mp4` share one entry there and have two in the model.
- `Generator.CanSpace` excludes a tempo of 0 with exactly one beat. On that
  input Python raises `ZeroDivisionError` at line 231 of `auto_music_video.py`,
  before the palette is read. The model does not include this error path.
- `Timing.BeatCount` divides exactly. Python divides binary floats, and the
  quotient can land just below a whole number. For example, `0.7 / 0.1` is
  `6.999999999999999`, so a duration of 0.7 at tempo 600 gives 6 beats in
  Python and 7 in the model.
- `Timing.DistributeBeats` uses half-up rounding on exact reals. Python's
  `round(x, 2)` rounds binary floats half to even, so a beat can differ from
  Python's by one hundredth: at tempo 480 the second beat is 0.13 in the model
  (`Timing.TieRoundsUp`) and 0.12 in Python. `PyNum.Round2Close` bounds each
  model beat's distance from the exact grid point `i * 60 / tempo` by 0.005.
- NaN and infinities are not modelled. For example, `update_trim` accepts NaN
  in Python, because every comparison with NaN is false.
- `Colors.ParseHexField` does not accept non-ASCII Unicode decimal digits,
  although Python's `int(..., 16)` does.
- `Video.VideoProcessor.SelectFile` stores the path string as given. Python
  stores a `Path`, which normalises the string, and the model does not do that
  normalisation.
- Rendering is not modelled: `render_auto_video`, `_render_with_manim`,
  `_font_size_from_video`, `_serialize_storyboard`, and the Manim scene and
  render thread modules. Each is a foreign library or JSON formatting.
- `process_all_inputs` is not modelled. It only chains the steps above
  with file paths.
- The server's start-up code after `handle_one_request` is not modelled. It
  parses arguments and opens sockets.
- Other modules are not modelled: the command-line entry points, logging
  calls, the GUI, the configuration constants, and `VideoProcessor.describe`.
- `reshape_text` is an opaque function. Its reshaping and bidirectional
  algorithms come from external libraries.
- `DevServer.FriendlyHttpRequestHandler.HandleOneRequest` does not model the
  body of `parse_request`. It also leaves out the 501 message text, what the
  dispatched handler does, and the final flush.
