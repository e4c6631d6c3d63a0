/**
 * The raw-text highlighter (ui/components/raw/SyntaxHighlightedText.kt):
 * a flag machine, `SyntaxHighlightState`, driven one character at a time,
 * and a colour role for every character. Theme colours are left out; the
 * roles stand for them.
 */
module SyntaxHighlight {
  import opened Text

  /** The colour roles: primary, secondary, error, tertiary, outline, onSurface. */
  datatype Style = PropertyString | StringText | NumberText | SpecialValue | Punctuation | Plain

  /** The five flags of `SyntaxHighlightState`. */
  datatype Flags = Flags(isInString: bool, isInProp: bool, isInValue: bool, isInNumber: bool, isInSpecialValue: bool)

  /** The transition a character fires, if any. */
  datatype Event = StringStart | StringEnd | PropEnd | NumberStart | NumberEnd | SpecialValueStart | SpecialValueEnd | NoEvent

  const InitialFlags := Flags(false, false, false, false, false)

  class SyntaxHighlightState {
    var isInString: bool
    var isInProp: bool
    var isInValue: bool
    var isInNumber: bool
    var isInSpecialValue: bool

    ghost function Current(): Flags
      reads this
    {
      Flags(isInString, isInProp, isInValue, isInNumber, isInSpecialValue)
    }

    constructor()
      ensures Current() == InitialFlags
    {
      isInString := false;
      isInProp := false;
      isInValue := false;
      isInNumber := false;
      isInSpecialValue := false;
    }

    /** `setStringStart`: a string opened outside value mode is a property name. */
    method SetStringStart()
      modifies this
      ensures isInString && isInProp == !old(isInValue)
      ensures isInValue == old(isInValue) && isInNumber == old(isInNumber) && isInSpecialValue == old(isInSpecialValue)
    {
      isInString := true;
      isInProp := !isInValue;
    }

    /** `setStringEnd`: a property name ends into value mode; a value string ends value mode. */
    method SetStringEnd()
      modifies this
      ensures !isInString && !isInProp
      ensures isInValue == old(isInProp)
      ensures isInNumber == old(isInNumber) && isInSpecialValue == old(isInSpecialValue)
    {
      isInString := false;
      if isInProp {
        isInProp := false;
        isInValue := true;
      } else {
        isInValue := false;
      }
    }

    /** `setPropEnd` */
    method SetPropEnd()
      modifies this
      ensures !isInProp && isInValue
      ensures isInString == old(isInString) && isInNumber == old(isInNumber) && isInSpecialValue == old(isInSpecialValue)
    {
      isInProp := false;
      isInValue := true;
    }

    /** `setNumberStart` */
    method SetNumberStart()
      modifies this
      ensures isInNumber && isInValue
      ensures isInString == old(isInString) && isInProp == old(isInProp) && isInSpecialValue == old(isInSpecialValue)
    {
      isInNumber := true;
      isInValue := true;
    }

    /** `setNumberEnd` */
    method SetNumberEnd()
      modifies this
      ensures !isInNumber && !isInValue
      ensures isInString == old(isInString) && isInProp == old(isInProp) && isInSpecialValue == old(isInSpecialValue)
    {
      isInNumber := false;
      isInValue := false;
    }

    /** `setSpecialValueStart` */
    method SetSpecialValueStart()
      modifies this
      ensures isInSpecialValue && isInValue
      ensures isInString == old(isInString) && isInProp == old(isInProp) && isInNumber == old(isInNumber)
    {
      isInSpecialValue := true;
      isInValue := true;
    }

    /** `setSpecialValueEnd` */
    method SetSpecialValueEnd()
      modifies this
      ensures !isInSpecialValue && !isInValue
      ensures isInString == old(isInString) && isInProp == old(isInProp) && isInNumber == old(isInNumber)
    {
      isInSpecialValue := false;
      isInValue := false;
    }
  }

  // ---------------------------------------------------------------------------
  // The scan as functions of the text

  /** A `"` not right after a backslash. */
  predicate UnescapedQuote(json: string, i: nat)
    requires i < |json|
  {
    json[i] == '"' && (i == 0 || json[i - 1] != '\\')
  }

  /** The branch of the `when` a character takes, in the order they are tried. */
  function EventAt(json: string, i: nat, inside: bool, f: Flags): (r: Event)
    requires i < |json|
    ensures (r == StringStart || r == StringEnd) <==> UnescapedQuote(json, i)
    ensures r == StringStart ==> !inside
    ensures r == StringEnd ==> inside
    ensures inside ==> r == StringEnd || r == NoEvent
  {
    var c := json[i];
    if UnescapedQuote(json, i) then (if inside then StringEnd else StringStart)
    else if c == ':' && !inside then PropEnd
    else if IsDigit(c) && !inside && !f.isInValue then NumberStart
    else if !IsDigit(c) && !inside && f.isInNumber then NumberEnd
    else if (c == 't' || c == 'f' || c == 'n') && !inside && !f.isInValue then SpecialValueStart
    else if !IsLetter(c) && !inside && f.isInSpecialValue then SpecialValueEnd
    else NoEvent
  }

  /** The flags after one transition, as the setters leave them. */
  function Apply(e: Event, f: Flags): Flags {
    match e
    case StringStart => f.(isInString := true, isInProp := !f.isInValue)
    case StringEnd => f.(isInString := false, isInProp := false, isInValue := f.isInProp)
    case PropEnd => f.(isInProp := false, isInValue := true)
    case NumberStart => f.(isInNumber := true, isInValue := true)
    case NumberEnd => f.(isInNumber := false, isInValue := false)
    case SpecialValueStart => f.(isInSpecialValue := true, isInValue := true)
    case SpecialValueEnd => f.(isInSpecialValue := false, isInValue := false)
    case NoEvent => f
  }

  /** `insideString` and the flags once the first `n` characters are read. */
  datatype Scan = Scan(inside: bool, flags: Flags)

  function ScanTo(json: string, n: nat): Scan
    requires n <= |json|
  {
    if n == 0 then Scan(false, InitialFlags) else Step(json, n - 1, ScanTo(json, n - 1))
  }

  /** Reading character `i`: the fired transition, and the quote toggle. */
  function Step(json: string, i: nat, s: Scan): (r: Scan)
    requires i < |json|
    ensures r.inside <==> (s.inside != UnescapedQuote(json, i))
    ensures s.inside && !UnescapedQuote(json, i) ==> r == s
  {
    var e := EventAt(json, i, s.inside, s.flags);
    Scan(if e == StringStart || e == StringEnd then !s.inside else s.inside, Apply(e, s.flags))
  }

  /** The role of a character read in a given state, tried in the source's order. */
  function StyleOf(c: char, s: Scan): (r: Style)
    ensures r == PropertyString <==> s.inside && s.flags.isInProp
    ensures r == StringText <==> s.inside && !s.flags.isInProp
    ensures r == NumberText <==> !s.inside && s.flags.isInNumber
    ensures r == SpecialValue <==> !s.inside && !s.flags.isInNumber && s.flags.isInSpecialValue
    ensures r == Punctuation <==> !s.inside && !s.flags.isInNumber && !s.flags.isInSpecialValue && c in "{}[],:"
  {
    if s.inside && s.flags.isInProp then PropertyString
    else if s.inside then StringText
    else if s.flags.isInNumber then NumberText
    else if s.flags.isInSpecialValue then SpecialValue
    else if c == '{' || c == '}' || c == '[' || c == ']' || c == ',' || c == ':' then Punctuation
    else Plain
  }

  /** The `when` on one character: fires at most one setter and toggles `insideString` on a quote. */
  method Transition(state: SyntaxHighlightState, json: string, index: nat, insideString: bool) returns (nowInside: bool)
    requires index < |json|
    modifies state
    ensures Scan(nowInside, state.Current()) == Step(json, index, Scan(insideString, old(state.Current())))
  {
    var c := json[index];
    nowInside := insideString;
    if c == '"' && (index == 0 || json[index - 1] != '\\') {
      nowInside := !nowInside;
      if nowInside {
        state.SetStringStart();
      } else {
        state.SetStringEnd();
      }
    } else if c == ':' && !nowInside {
      state.SetPropEnd();
    } else if IsDigit(c) && !nowInside && !state.isInValue {
      state.SetNumberStart();
    } else if !IsDigit(c) && !nowInside && state.isInNumber {
      state.SetNumberEnd();
    } else if (c == 't' || c == 'f' || c == 'n') && !nowInside && !state.isInValue {
      state.SetSpecialValueStart();
    } else if !IsLetter(c) && !nowInside && state.isInSpecialValue {
      state.SetSpecialValueEnd();
    }
  }

  /** The styled spans of the first `n` characters, each styled in the state its own transition left. */
  function Spans(json: string, n: nat): (r: seq<(char, Style)>)
    requires n <= |json|
    ensures |r| == n
    ensures forall i :: 0 <= i < n ==> r[i] == (json[i], StyleOf(json[i], ScanTo(json, i + 1)))
  {
    if n == 0 then [] else Spans(json, n - 1) + [(json[n - 1], StyleOf(json[n - 1], ScanTo(json, n)))]
  }

  /**
   * The highlighter's loop: one styled span per character, the characters
   * in their order, each styled in the state its own transition left.
   */
  method Highlight(json: string) returns (spans: seq<(char, Style)>)
    ensures |spans| == |json|
    ensures forall i :: 0 <= i < |json| ==> spans[i].0 == json[i]
    ensures forall i :: 0 <= i < |json| ==> spans[i].1 == StyleOf(json[i], ScanTo(json, i + 1))
  {
    var state := new SyntaxHighlightState();
    var insideString := false;
    spans := [];
    for index := 0 to |json|
      invariant Scan(insideString, state.Current()) == ScanTo(json, index)
      invariant spans == Spans(json, index)
    {
      insideString := Transition(state, json, index, insideString);
      var flags := Flags(state.isInString, state.isInProp, state.isInValue, state.isInNumber, state.isInSpecialValue);
      var style := StyleOf(json[index], Scan(insideString, flags));
      spans := spans + [(json[index], style)];
    }
  }

  // ---------------------------------------------------------------------------
  // What the scan promises

  /** The number of unescaped quotes among the first `n` characters. */
  function QuotesBefore(json: string, n: nat): nat
    requires n <= |json|
  {
    if n == 0 then 0 else QuotesBefore(json, n - 1) + (if UnescapedQuote(json, n - 1) then 1 else 0)
  }

  /**
   * `insideString` toggles exactly at unescaped quotes: it holds after an
   * odd number of them, and the private `isInString` flag always agrees.
   */
  lemma {:induction false} InsideByQuotes(json: string, n: nat)
    requires n <= |json|
    ensures ScanTo(json, n).inside <==> QuotesBefore(json, n) % 2 == 1
    ensures ScanTo(json, n).flags.isInString == ScanTo(json, n).inside
  {
    if n > 0 {
      InsideByQuotes(json, n - 1);
    }
  }

  /** A `:` outside a string ends the property name and enters value mode. */
  lemma ColonEntersValue(json: string, i: nat)
    requires i < |json| && json[i] == ':' && !ScanTo(json, i).inside
    ensures !ScanTo(json, i + 1).flags.isInProp && ScanTo(json, i + 1).flags.isInValue
    ensures !ScanTo(json, i + 1).inside
  {
  }

  /** A number starts only on a digit outside strings and outside value mode. */
  lemma NumberStartsOnDigit(json: string, i: nat)
    requires i < |json| && !ScanTo(json, i).flags.isInNumber && ScanTo(json, i + 1).flags.isInNumber
    ensures IsDigit(json[i]) && !ScanTo(json, i).inside && !ScanTo(json, i).flags.isInValue
  {
  }

  /**
   * A number ends at the first non-digit outside a string (unless a quote
   * or a colon takes priority), leaving value mode.
   */
  lemma NumberEndsOnNonDigit(json: string, i: nat)
    requires i < |json| && ScanTo(json, i).flags.isInNumber && !ScanTo(json, i).inside
    requires !IsDigit(json[i]) && !UnescapedQuote(json, i) && json[i] != ':'
    ensures !ScanTo(json, i + 1).flags.isInNumber && !ScanTo(json, i + 1).flags.isInValue
  {
  }

  /** A literal starts only on `t`, `f` or `n` outside strings and outside value mode. */
  lemma SpecialValueStartsOnLetter(json: string, i: nat)
    requires i < |json| && !ScanTo(json, i).flags.isInSpecialValue && ScanTo(json, i + 1).flags.isInSpecialValue
    ensures json[i] in "tfn" && !ScanTo(json, i).inside && !ScanTo(json, i).flags.isInValue
  {
  }

  /**
   * A literal ends at the first non-letter outside a string, unless an
   * earlier branch of the `when` takes the character.
   */
  lemma SpecialValueEndsOnNonLetter(json: string, i: nat)
    requires i < |json| && ScanTo(json, i).flags.isInSpecialValue && !ScanTo(json, i).inside
    requires !IsLetter(json[i]) && !UnescapedQuote(json, i) && json[i] != ':'
    requires !IsDigit(json[i]) || ScanTo(json, i).flags.isInValue
    requires IsDigit(json[i]) || !ScanTo(json, i).flags.isInNumber
    ensures !ScanTo(json, i + 1).flags.isInSpecialValue && !ScanTo(json, i + 1).flags.isInValue
  {
  }
}
