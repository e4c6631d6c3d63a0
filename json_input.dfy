/**
 * The input screen (ui/components/input/JsonInputScreen.kt): a text box
 * filled by typing, pasting, a sample or a file, and a Parse button that
 * hands the text on only when its trimmed form is bracketed like an object
 * or an array. The clipboard, the sample texts and the file reader are
 * outside the model: what they deliver arrives as a parameter.
 */
module JsonInput {
  import opened Wrappers
  import opened Text
  import opened JsonUtils

  /** The Parse button's check: the trimmed text is `{...}` or `[...]`. */
  predicate LooksLikeJson(text: string) {
    var t := Trim(text);
    (StartsWithChar(t, '{') && EndsWithChar(t, '}')) || (StartsWithChar(t, '[') && EndsWithChar(t, ']'))
  }

  /** Text the button hands on is not blank and opens an object or an array as the viewer reads it. */
  lemma LooksLikeJsonOpens(text: string)
    ensures LooksLikeJson(text) ==> !IsBlank(text) && (OpensObject(text) || OpensArray(text))
    ensures IsBlank(text) ==> !LooksLikeJson(text)
  {
  }

  /** The text a file's lines make when each is followed by a line feed. */
  function LinesText(lines: seq<string>): (r: string)
    ensures lines == [] <==> r == []
    ensures lines != [] ==> r[|r| - 1] == '\n'
  {
    if lines == [] then "" else LinesText(lines[..|lines| - 1]) + lines[|lines| - 1] + "\n"
  }

  /** The prefix of a file's text made by its first lines. */
  lemma {:induction false} LinesTextPrefix(lines: seq<string>, n: nat)
    requires n <= |lines|
    ensures |LinesText(lines[..n])| <= |LinesText(lines)|
    ensures LinesText(lines[..n]) == LinesText(lines)[..|LinesText(lines[..n])|]
    decreases |lines|
  {
    if n < |lines| {
      var init := lines[..|lines| - 1];
      assert lines[..n] == init[..n];
      LinesTextPrefix(init, n);
      assert lines[..|lines|] == lines;
    } else {
      assert lines[..n] == lines;
    }
  }

  class JsonInputScreen {
    var jsonText: string
    var isJsonValid: bool

    constructor()
      ensures jsonText == "" && isJsonValid
    {
      jsonText := "";
      isJsonValid := true;
    }

    /** Typing in the text box: any edit clears the error. */
    method EditText(text: string)
      modifies this
      ensures jsonText == text && isJsonValid
    {
      jsonText := text;
      isJsonValid := true;
    }

    /** The clear button, a paste or a sample: the text changes and the error stays as it was. */
    method ReplaceText(text: string)
      modifies this
      ensures jsonText == text && isJsonValid == old(isJsonValid)
    {
      jsonText := text;
    }

    /**
     * A picked file: its lines, each followed by a line feed, or, when
     * reading fails, the error text with the error shown.
     */
    method LoadFile(lines: Option<seq<string>>, errorMessage: string)
      modifies this
      ensures lines.Some? ==> jsonText == LinesText(lines.value) && isJsonValid
      ensures lines.None? ==> jsonText == "Error loading file: " + errorMessage && !isJsonValid
    {
      if lines.None? {
        jsonText := "Error loading file: " + errorMessage;
        isJsonValid := false;
        return;
      }
      var text := "";
      var i := 0;
      while i < |lines.value|
        invariant 0 <= i <= |lines.value|
        invariant text == LinesText(lines.value[..i])
      {
        assert lines.value[..i + 1][..i] == lines.value[..i];
        text := text + lines.value[i] + "\n";
        i := i + 1;
      }
      assert lines.value[..i] == lines.value;
      jsonText := text;
      isJsonValid := true;
    }

    /**
     * The Parse button, enabled while the text is not empty: the untouched
     * text goes to `onJsonLoaded` when it looks like JSON; otherwise the
     * error is shown.
     */
    method ParseClick() returns (loaded: Option<string>)
      requires jsonText != ""
      modifies this
      ensures loaded.Some? <==> LooksLikeJson(jsonText)
      ensures loaded.Some? ==> loaded.value == jsonText && isJsonValid == old(isJsonValid)
      ensures loaded.None? ==> !isJsonValid
      ensures IsBlank(jsonText) ==> loaded.None?
      ensures jsonText == old(jsonText)
    {
      var trimmed := Trim(jsonText);
      if trimmed == [] {
        isJsonValid := false;
        return None;
      } else if (StartsWithChar(trimmed, '{') && EndsWithChar(trimmed, '}')) ||
                (StartsWithChar(trimmed, '[') && EndsWithChar(trimmed, ']')) {
        return Some(jsonText);
      } else {
        isJsonValid := false;
        return None;
      }
    }
  }
}
