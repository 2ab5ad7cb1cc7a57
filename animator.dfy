/** Animated text preparation of `PersianTextAnimator` (src/text_animator.py).
    The reshaping and bidirectional reordering of `reshape_text` come from
    external libraries and are an opaque function here. */
module TextAnimator {

  /** `AnimatedText` */
  datatype AnimatedText = AnimatedText(
    content: string,
    font: string,
    color: string,
    size: int,
    animation: string,
    duration: real)

  class PersianTextAnimator {
    const defaultFont: string
    /** `reshape_text`: `get_display(arabic_reshaper.reshape(text))`. */
    const reshape: string -> string

    constructor(defaultFont: string, reshape: string -> string)
      ensures this.defaultFont == defaultFont && this.reshape == reshape
    {
      this.defaultFont := defaultFont;
      this.reshape := reshape;
    }

    /** `build_animated_sequence(entries)`: one prepared entry per input entry,
        in order. */
    method BuildAnimatedSequence(entries: seq<AnimatedText>) returns (processed: seq<AnimatedText>)
      ensures |processed| == |entries|
      ensures forall i :: 0 <= i < |entries| ==>
        // the content reshaped for display
        && processed[i].content == reshape(entries[i].content)
        // an empty font falls back to the default
        && processed[i].font == (if entries[i].font != "" then entries[i].font else defaultFont)
        // everything else is copied
        && processed[i].color == entries[i].color
        && processed[i].size == entries[i].size
        && processed[i].animation == entries[i].animation
        && processed[i].duration == entries[i].duration
    {
      processed := [];
      for i := 0 to |entries|
        invariant |processed| == i
        invariant forall k :: 0 <= k < i ==>
          && processed[k].content == reshape(entries[k].content)
          && processed[k].font == (if entries[k].font != "" then entries[k].font else defaultFont)
          && processed[k].color == entries[k].color && processed[k].size == entries[k].size
          && processed[k].animation == entries[k].animation && processed[k].duration == entries[k].duration
      {
        var entry := entries[i];
        var reshaped := reshape(entry.content);
        var font := if entry.font != "" then entry.font else defaultFont;
        var prepared := AnimatedText(reshaped, font, entry.color, entry.size, entry.animation, entry.duration);
        processed := processed + [prepared];
      }
    }

    /** `typewriter_effect_frames(text)`: the non-empty prefixes of the reshaped
        text, shortest first. */
    function TypewriterEffectFrames(text: string): (frames: seq<string>)
      ensures |frames| == |reshape(text)|
    {
      var display := reshape(text);
      seq(|display|, i requires 0 <= i < |display| => display[..i + 1])
    }

    /** Each frame adds one character to the one before; the first holds one
        character and the last is the whole reshaped text. */
    lemma TypewriterGrows(text: string)
      ensures var frames, display := TypewriterEffectFrames(text), reshape(text);
        && (display == [] <==> frames == [])
        && (frames != [] ==> frames[0] == [display[0]] && frames[|frames| - 1] == display)
        && (forall i :: 0 <= i < |frames| ==> |frames[i]| == i + 1 && display[..|frames[i]|] == frames[i])
        && (forall i, j :: 0 <= i && j == i + 1 && j < |frames| ==> frames[j] == frames[i] + [display[j]])
    {
      var frames, display := TypewriterEffectFrames(text), reshape(text);
      forall i, j | 0 <= i && j == i + 1 && j < |frames| ensures frames[j] == frames[i] + [display[j]] {
        assert display[..j + 1] == display[..j] + [display[j]];
      }
    }
  }
}
