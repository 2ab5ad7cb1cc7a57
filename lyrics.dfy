/** Persian lyric formatting of `AutoMusicVideoGenerator` (auto_music_video.py):
    right-to-left display order for lines with Arabic-script characters and a
    greedy packer that breaks long lines at word boundaries. */
module Lyrics {
  import opened PyStr

  /** Default `max_chars` of `_auto_break_line`. */
  const MaxLineChars: nat := 32

  /** A character of the Unicode Arabic block, U+0600 to U+06FF. */
  predicate IsArabicBlock(c: char) {
    '\U{0600}' <= c <= '\U{06FF}'
  }

  /** `_is_persian`: a regular-expression search for an Arabic-block character,
      scanning the line from the left. */
  predicate IsPersian(line: string) {
    line != [] && (IsArabicBlock(line[0]) || IsPersian(line[1..]))
  }

  /** The scan finds a character exactly when the line holds one somewhere. */
  lemma {:induction false} IsPersianAt(line: string)
    ensures IsPersian(line) <==> exists i :: 0 <= i < |line| && IsArabicBlock(line[i])
  {
    if line != [] {
      IsPersianAt(line[1..]);
      if IsPersian(line[1..]) {
        var i :| 0 <= i < |line| - 1 && IsArabicBlock(line[1..][i]);
        assert IsArabicBlock(line[i + 1]);
      }
      if exists i :: 0 <= i < |line| && IsArabicBlock(line[i]) {
        var i :| 0 <= i < |line| && IsArabicBlock(line[i]);
        if i > 0 {
          assert IsArabicBlock(line[1..][i - 1]);
        }
      }
    }
  }

  /** `_apply_rtl`: Persian lines are reversed into display order, others are kept. */
  function ApplyRtl(line: string): (r: string)
    ensures |r| == |line|
  {
    if IsPersian(line) then Reverse(line) else line
  }

  lemma ReverseKeepsPersian(line: string)
    ensures IsPersian(Reverse(line)) == IsPersian(line)
  {
    var r := Reverse(line);
    IsPersianAt(line);
    IsPersianAt(r);
    if IsPersian(line) {
      var i :| 0 <= i < |line| && IsArabicBlock(line[i]);
      assert r[|line| - 1 - i] == line[i];
    }
    if IsPersian(r) {
      var j :| 0 <= j < |r| && IsArabicBlock(r[j]);
      assert line[|line| - 1 - j] == r[j];
    }
  }

  /** The flip happens exactly for Persian lines and undoes itself. */
  lemma ApplyRtlInvolution(line: string)
    ensures ApplyRtl(line) == (if IsPersian(line) then Reverse(line) else line)
    ensures IsPersian(ApplyRtl(line)) == IsPersian(line)
    ensures ApplyRtl(ApplyRtl(line)) == line
  {
    ReverseKeepsPersian(line);
    ReverseReverse(line);
  }

  /** Every line flipped with `ApplyRtl`: display order to logical order and back. */
  function Flip(lines: seq<string>): (r: seq<string>)
    ensures |r| == |lines|
  {
    seq(|lines|, k requires 0 <= k < |lines| => ApplyRtl(lines[k]))
  }

  lemma FlipAppend(a: seq<string>, b: seq<string>)
    ensures Flip(a + b) == Flip(a) + Flip(b)
  {
  }

  /** The words of lines in logical order, concatenated. */
  function ConcatWords(lines: seq<string>): seq<string> {
    if lines == [] then [] else Words(lines[0]) + ConcatWords(lines[1..])
  }

  lemma {:induction false} ConcatWordsAppend(a: seq<string>, b: seq<string>)
    ensures ConcatWords(a + b) == ConcatWords(a) + ConcatWords(b)
  {
    if a != [] {
      assert (a + b)[0] == a[0];
      assert (a + b)[1..] == a[1..] + b;
      ConcatWordsAppend(a[1..], b);
    } else {
      assert a + b == b;
    }
  }

  // ---------------------------------------------------------------------------
  // The greedy packing, as a function over words

  /** All words of a bucket list, in order. */
  function Flatten(buckets: seq<seq<string>>): seq<string> {
    if buckets == [] then [] else buckets[0] + Flatten(buckets[1..])
  }

  /** The loop of `_auto_break_line` from a given point on: the buckets it emits
      for the remaining `words` when the current bucket is `bucket`. A word that
      would take the bucket's `sum(len) + len` plus its own length past
      `maxChars` closes the bucket; at the end a non-empty bucket is emitted. */
  function Pack(words: seq<string>, bucket: seq<string>, maxChars: nat): (buckets: seq<seq<string>>)
    ensures buckets == [] <==> words == [] && bucket == []
    ensures |buckets| <= |words| + 1
    decreases |words|
  {
    if words == [] then (if bucket == [] then [] else [bucket])
    else if TotalLen(bucket) + |bucket| + |words[0]| > maxChars then
      [bucket] + Pack(words[1..], [words[0]], maxChars)
    else Pack(words[1..], bucket + [words[0]], maxChars)
  }

  /** A bucket that is empty, a single word, or joins to at most `maxChars`. */
  predicate BucketFits(bucket: seq<string>, maxChars: nat) {
    |bucket| <= 1 || TotalLen(bucket) + |bucket| - 1 <= maxChars
  }

  /** Packing neither loses, duplicates nor reorders a word. */
  lemma {:induction false} PackFlatten(words: seq<string>, bucket: seq<string>, maxChars: nat)
    ensures Flatten(Pack(words, bucket, maxChars)) == bucket + words
    decreases |words|
  {
    if words == [] {
      if bucket != [] {
        assert Flatten([bucket]) == bucket + Flatten([]);
      }
    } else {
      var w := words[0];
      assert words == [w] + words[1..];
      if TotalLen(bucket) + |bucket| + |w| > maxChars {
        var rest := Pack(words[1..], [w], maxChars);
        assert ([bucket] + rest)[1..] == rest;
        PackFlatten(words[1..], [w], maxChars);
      } else {
        PackFlatten(words[1..], bucket + [w], maxChars);
      }
    }
  }

  /** Packing keeps every bucket within `maxChars` unless it is a single word. */
  lemma {:induction false} PackFits(words: seq<string>, bucket: seq<string>, maxChars: nat)
    requires BucketFits(bucket, maxChars)
    ensures forall k :: 0 <= k < |Pack(words, bucket, maxChars)| ==>
      BucketFits(Pack(words, bucket, maxChars)[k], maxChars)
    decreases |words|
  {
    if words != [] {
      var w := words[0];
      if TotalLen(bucket) + |bucket| + |w| > maxChars {
        PackFits(words[1..], [w], maxChars);
      } else {
        assert (bucket + [w])[..|bucket|] == bucket;
        PackFits(words[1..], bucket + [w], maxChars);
      }
    }
  }

  /** Once the bucket holds a word, every emitted bucket does, and the first
      emitted bucket starts with the current bucket's first word. */
  lemma {:induction false} PackNonEmpty(words: seq<string>, bucket: seq<string>, maxChars: nat)
    requires bucket != []
    ensures Pack(words, bucket, maxChars) != []
    ensures Pack(words, bucket, maxChars)[0] != [] && Pack(words, bucket, maxChars)[0][0] == bucket[0]
    ensures forall k :: 0 <= k < |Pack(words, bucket, maxChars)| ==> Pack(words, bucket, maxChars)[k] != []
    decreases |words|
  {
    if words != [] {
      var w := words[0];
      if TotalLen(bucket) + |bucket| + |w| > maxChars {
        PackNonEmpty(words[1..], [w], maxChars);
      } else {
        PackNonEmpty(words[1..], bucket + [w], maxChars);
      }
    }
  }

  /** Two neighbouring buckets `b`, `c`: the first word of `c` failed the width
      test against `b`. */
  predicate Overflows(b: seq<string>, c: seq<string>, maxChars: nat) {
    c != [] && TotalLen(b) + |b| + |c[0]| > maxChars
  }

  /** Every bucket but the last was closed because the next one's first word
      would not fit after it. */
  ghost predicate Greedy(bs: seq<seq<string>>, maxChars: nat) {
    forall k, l :: 0 <= k && l == k + 1 && l < |bs| ==> Overflows(bs[k], bs[l], maxChars)
  }

  /** Packing is greedy. */
  lemma {:induction false} PackGreedy(words: seq<string>, bucket: seq<string>, maxChars: nat)
    ensures Greedy(Pack(words, bucket, maxChars), maxChars)
    decreases |words|
  {
    if words != [] {
      var w := words[0];
      if TotalLen(bucket) + |bucket| + |w| > maxChars {
        var rest := Pack(words[1..], [w], maxChars);
        PackGreedy(words[1..], [w], maxChars);
        PackNonEmpty(words[1..], [w], maxChars);
        var bs := [bucket] + rest;
        forall k, l | 0 <= k && l == k + 1 && l < |bs| ensures Overflows(bs[k], bs[l], maxChars) {
          if k > 0 {
            assert bs[k] == rest[k - 1] && bs[l] == rest[l - 1];
          }
        }
      } else {
        PackGreedy(words[1..], bucket + [w], maxChars);
      }
    }
  }

  /** Buckets of words hold words. */
  lemma {:induction false} PackHoldsWords(words: seq<string>, bucket: seq<string>, maxChars: nat)
    requires forall j :: 0 <= j < |words| ==> IsWord(words[j])
    requires forall j :: 0 <= j < |bucket| ==> IsWord(bucket[j])
    ensures forall k, j :: 0 <= k < |Pack(words, bucket, maxChars)| && 0 <= j < |Pack(words, bucket, maxChars)[k]| ==>
      IsWord(Pack(words, bucket, maxChars)[k][j])
    decreases |words|
  {
    if words != [] {
      var w := words[0];
      if TotalLen(bucket) + |bucket| + |w| > maxChars {
        PackHoldsWords(words[1..], [w], maxChars);
      } else {
        PackHoldsWords(words[1..], bucket + [w], maxChars);
      }
    }
  }

  // ---------------------------------------------------------------------------
  // Display lines

  /** Each bucket as `self._apply_rtl(" ".join(bucket))`. */
  function Render(buckets: seq<seq<string>>): (lines: seq<string>)
    ensures |lines| == |buckets|
  {
    if buckets == [] then [] else [ApplyRtl(Join(buckets[0]))] + Render(buckets[1..])
  }

  lemma {:induction false} RenderAt(buckets: seq<seq<string>>, k: nat)
    requires k < |buckets|
    ensures Render(buckets)[k] == ApplyRtl(Join(buckets[k]))
  {
    if k > 0 {
      RenderAt(buckets[1..], k - 1);
    }
  }

  /** `_auto_break_line(line, max_chars)` as a function of its inputs. */
  function BreakLine(line: string, maxChars: nat): (lines: seq<string>)
    ensures |line| <= maxChars ==> |lines| == 1
    ensures lines == [] <==> |line| > maxChars && Words(line) == []
  {
    if |line| <= maxChars then [ApplyRtl(line)] else Render(Pack(Words(line), [], maxChars))
  }

  /** A long line, read back in logical order, is its packed buckets joined by spaces. */
  lemma LongLineLogical(line: string, maxChars: nat)
    requires |line| > maxChars
    ensures var bs := Pack(Words(line), [], maxChars);
      && |Flip(BreakLine(line, maxChars))| == |bs|
      && (forall k :: 0 <= k < |bs| ==> Flip(BreakLine(line, maxChars))[k] == Join(bs[k]))
      && (forall k, j :: 0 <= k < |bs| && 0 <= j < |bs[k]| ==> IsWord(bs[k][j]))
  {
    var bs := Pack(Words(line), [], maxChars);
    PackHoldsWords(Words(line), [], maxChars);
    forall k | 0 <= k < |bs| ensures Flip(BreakLine(line, maxChars))[k] == Join(bs[k]) {
      RenderAt(bs, k);
      ApplyRtlInvolution(Join(bs[k]));
    }
  }

  lemma {:induction false} ConcatWordsOfJoins(lines: seq<string>, bs: seq<seq<string>>)
    requires |lines| == |bs|
    requires forall k :: 0 <= k < |bs| ==> lines[k] == Join(bs[k])
    requires forall k, j :: 0 <= k < |bs| && 0 <= j < |bs[k]| ==> IsWord(bs[k][j])
    ensures ConcatWords(lines) == Flatten(bs)
  {
    if bs != [] {
      WordsOfJoin(bs[0]);
      ConcatWordsOfJoins(lines[1..], bs[1..]);
    }
  }

  /** Breaking a line keeps its words: flipping every output line back and
      splitting it gives `line.split()` in order (an empty leading line holds no
      words). */
  lemma BreakLineKeepsWords(line: string, maxChars: nat)
    ensures ConcatWords(Flip(BreakLine(line, maxChars))) == Words(line)
  {
    if |line| <= maxChars {
      ApplyRtlInvolution(line);
      assert Flip(BreakLine(line, maxChars)) == [line];
    } else {
      var bs := Pack(Words(line), [], maxChars);
      LongLineLogical(line, maxChars);
      ConcatWordsOfJoins(Flip(BreakLine(line, maxChars)), bs);
      PackFlatten(Words(line), [], maxChars);
    }
  }

  /** A line that fits in `maxChars`, or a single word too long to be broken. */
  predicate Fits(line: string, maxChars: nat) {
    |line| <= maxChars || IsWord(line)
  }

  /** Every output line fits, unless it is one word that cannot be broken. */
  lemma BreakLineFits(line: string, maxChars: nat)
    ensures forall k :: 0 <= k < |BreakLine(line, maxChars)| ==>
      |BreakLine(line, maxChars)[k]| <= maxChars || IsWord(Flip(BreakLine(line, maxChars))[k])
  {
    if |line| > maxChars {
      var bs := Pack(Words(line), [], maxChars);
      LongLineLogical(line, maxChars);
      PackFits(Words(line), [], maxChars);
      forall k | 0 <= k < |bs| ensures Fits(Flip(BreakLine(line, maxChars))[k], maxChars) {
        if |bs[k]| == 1 {
          JoinOne(bs[k][0]);
        } else if |bs[k]| > 1 {
          JoinLength(bs[k]);
        }
      }
    }
  }

  /** Length of the first word of a line, 0 for a line without words. */
  function FirstWordLen(s: string): nat {
    var ws := Words(s);
    if ws == [] then 0 else |ws[0]|
  }

  /** Greedy packing in terms of text: the width test of `_auto_break_line`
      (the bucket's letters, one per word for the spaces, and the new word)
      failed for the first word of `next` against `line`. */
  predicate Full(line: string, next: string, maxChars: nat) {
    |line| + (if line == "" then 0 else 1) + FirstWordLen(next) > maxChars
  }

  /** A line that is its own words joined by single spaces. */
  predicate Normalized(line: string) {
    line == Join(Words(line))
  }

  /** A long line breaks into normalized lines, each full: the next line's first
      word would not have fitted after it. Only the first line can be empty,
      and it is empty exactly when the first word alone is longer than
      `maxChars`. */
  lemma BreakLinePacked(line: string, maxChars: nat)
    requires |line| > maxChars
    ensures var logical := Flip(BreakLine(line, maxChars));
      && (forall k :: 0 <= k < |logical| ==> Normalized(logical[k]))
      && (forall k, l :: 0 <= k && l == k + 1 && l < |logical| ==> Full(logical[k], logical[l], maxChars))
      && (forall k :: 0 < k < |logical| ==> logical[k] != "")
      && ((|logical| > 0 && logical[0] == "") <==> (Words(line) != [] && |Words(line)[0]| > maxChars))
  {
    var words := Words(line);
    var bs := Pack(words, [], maxChars);
    var logical := Flip(BreakLine(line, maxChars));
    LongLineLogical(line, maxChars);
    PackGreedy(words, [], maxChars);
    forall k | 0 <= k < |bs| ensures Normalized(logical[k]) && FirstWordLen(logical[k]) == (if bs[k] == [] then 0 else |bs[k][0]|)
      ensures |logical[k]| == (if bs[k] == [] then 0 else TotalLen(bs[k]) + |bs[k]| - 1)
      ensures logical[k] == "" <==> bs[k] == []
    {
      WordsOfJoin(bs[k]);
      if bs[k] != [] {
        JoinLength(bs[k]);
        assert |Join(bs[k])| >= |bs[k][0]| > 0 by {
          if |bs[k]| > 1 {
            assert Join(bs[k]) == bs[k][0] + " " + Join(bs[k][1..]);
          }
        }
      }
    }
    if words != [] {
      PackNonEmpty(words[1..], [words[0]], maxChars);
      var rest := Pack(words[1..], [words[0]], maxChars);
      assert [] + [words[0]] == [words[0]];
      assert forall k :: 0 <= k < |rest| ==> rest[k] != [];
      if |words[0]| > maxChars {
        assert bs == [[]] + rest;
      } else {
        assert bs == rest;
      }
    }
  }

  /** `_auto_break_line(line, max_chars)`.

      A line of at most `maxChars` characters comes back alone, flipped. A longer
      line is split into words and packed greedily: a word joins the current
      bucket unless the bucket's `sum(len) + len` plus the word's length would
      pass `maxChars`, in which case the bucket is emitted and the word starts a
      new one. Because the width test also runs on the empty first bucket, a
      first word longer than `maxChars` makes an empty leading line. */
  method AutoBreakLine(line: string, maxChars: nat) returns (lines: seq<string>)
    ensures lines == BreakLine(line, maxChars)
  {
    if |line| <= maxChars {
      return [ApplyRtl(line)];
    }
    var words := Words(line);
    var bucket: seq<string> := [];
    lines := [];
    var i := 0;
    while i < |words|
      invariant 0 <= i <= |words|
      invariant lines + Render(Pack(words[i..], bucket, maxChars)) == Render(Pack(words, [], maxChars))
    {
      var word := words[i];
      assert words[i..][0] == word && words[i..][1..] == words[i + 1..];
      if TotalLen(bucket) + |bucket| + |word| > maxChars {
        lines := lines + [ApplyRtl(Join(bucket))];
        bucket := [word];
      } else {
        bucket := bucket + [word];
      }
      i := i + 1;
    }
    if bucket != [] {
      lines := lines + [ApplyRtl(Join(bucket))];
    }
  }

  /** One line of the lyrics file as `auto_format_persian_lyrics` turns it into
      display lines: stripped, dropped when blank, otherwise broken with the
      default width. */
  function FormatLine(raw: string): (lines: seq<string>)
    ensures lines == [] <==> Strip(raw) == []
  {
    var stripped := Strip(raw);
    WordsStrip(raw);
    if stripped != [] then BreakLine(stripped, MaxLineChars) else []
  }

  /** `auto_format_persian_lyrics` as a function of the lyric file's lines. */
  function FormatLines(text: seq<string>): (lines: seq<string>)
    ensures lines == [] <==> forall i :: 0 <= i < |text| ==> Strip(text[i]) == []
  {
    if text == [] then [] else FormatLine(text[0]) + FormatLines(text[1..])
  }

  lemma AppendAssoc<T>(a: seq<T>, b: seq<T>, c: seq<T>)
    ensures (a + b) + c == a + (b + c)
  {
  }

  /** The formatted lines from line `j` on start with line `j`'s. */
  lemma FormatLinesStep(text: seq<string>, j: nat)
    requires j < |text|
    ensures FormatLines(text[j..]) == FormatLine(text[j]) + FormatLines(text[j + 1..])
  {
    assert text[j..][0] == text[j] && text[j..][1..] == text[j + 1..];
  }

  /** `auto_format_persian_lyrics` over the lines of the lyrics file. */
  method FormatLyrics(text: seq<string>) returns (cleaned: seq<string>)
    ensures cleaned == FormatLines(text)
  {
    cleaned := [];
    var j := 0;
    while j < |text|
      invariant 0 <= j <= |text|
      invariant cleaned + FormatLines(text[j..]) == FormatLines(text)
    {
      FormatLinesStep(text, j);
      var stripped := Strip(text[j]);
      var broken: seq<string> := [];
      if stripped != [] {
        broken := AutoBreakLine(stripped, MaxLineChars);
      }
      assert broken == FormatLine(text[j]);
      ghost var rest := FormatLines(text[j + 1..]);
      assert cleaned + (broken + rest) == FormatLines(text);
      AppendAssoc(cleaned, broken, rest);
      cleaned := cleaned + broken;
      assert cleaned + rest == FormatLines(text);
      j := j + 1;
    }
  }

  /** The words of all lyric lines, in order. */
  function AllWords(text: seq<string>): seq<string> {
    if text == [] then [] else Words(text[0]) + AllWords(text[1..])
  }

  /** Formatting keeps every word of the lyrics, in order. */
  lemma {:induction false} FormatLinesKeepsWords(text: seq<string>)
    ensures ConcatWords(Flip(FormatLines(text))) == AllWords(text)
  {
    if text != [] {
      var stripped := Strip(text[0]);
      var head := FormatLine(text[0]);
      WordsStrip(text[0]);
      if stripped != [] {
        BreakLineKeepsWords(stripped, MaxLineChars);
      }
      FormatLinesKeepsWords(text[1..]);
      FlipAppend(head, FormatLines(text[1..]));
      ConcatWordsAppend(Flip(head), Flip(FormatLines(text[1..])));
    }
  }

  /** Every formatted line fits in 32 characters, unless it is one unbreakable word. */
  lemma {:induction false} FormatLinesFit(text: seq<string>)
    ensures forall k :: 0 <= k < |FormatLines(text)| ==>
      |FormatLines(text)[k]| <= MaxLineChars || IsWord(Flip(FormatLines(text))[k])
  {
    if text != [] {
      var stripped := Strip(text[0]);
      var head := FormatLine(text[0]);
      var tail := FormatLines(text[1..]);
      if stripped != [] {
        BreakLineFits(stripped, MaxLineChars);
      }
      FormatLinesFit(text[1..]);
      forall k | 0 <= k < |head + tail|
        ensures |(head + tail)[k]| <= MaxLineChars || IsWord(Flip(head + tail)[k])
      {
        if k < |head| {
          assert (head + tail)[k] == head[k] && Flip(head + tail)[k] == Flip(head)[k];
        } else {
          assert (head + tail)[k] == tail[k - |head|] && Flip(head + tail)[k] == Flip(tail)[k - |head|];
        }
      }
    }
  }
}
