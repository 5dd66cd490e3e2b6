/**
 * Translation of company descriptions to Spanish (translate_to_spanish).
 *
 * The text is cut into slices of at most MaxLength characters, each slice is
 * handed to the external translation service in order, and the translated
 * slices are joined with single spaces. The service is a parameter: it
 * returns `Some(translation)` or `None` when the call raises.
 */
module Translation {
  import opened Wrappers

  /** Largest slice handed to the translation service in one call. */
  const MaxLength: nat := 5000

  /** The placeholder the dashboard uses for a missing field. */
  const NotAvailable: string := "No disponible"

  /** The fixed answer for an empty or unavailable text. */
  const NoDescription: string := "No hay descripción disponible."

  /** Empty text (falsy in Python) or the placeholder: nothing to translate. */
  predicate IsSentinel(text: string) {
    text == [] || text == NotAvailable
  }

  function Min(a: int, b: int): int {
    if a <= b then a else b
  }

  /** The number of starts in range(0, len, MaxLength). */
  function ChunkCount(len: nat): nat {
    (len + MaxLength - 1) / MaxLength
  }

  /**
   * The slices text[i : i + MaxLength] for i in range(0, len(text), MaxLength);
   * a Python slice past the end stops at the end.
   */
  function Chunks(text: string): seq<string> {
    seq(ChunkCount(|text|), i requires 0 <= i < ChunkCount(|text|) =>
      text[i * MaxLength .. Min(i * MaxLength + MaxLength, |text|)])
  }

  /** The slices laid end to end. */
  function Concat(parts: seq<string>): string {
    if parts == [] then [] else parts[0] + Concat(parts[1..])
  }

  /** Python's " ".join(parts). */
  function Join(parts: seq<string>): string {
    if parts == [] then []
    else if |parts| == 1 then parts[0]
    else parts[0] + " " + Join(parts[1..])
  }

  /**
   * Every slice translated in order; `None` as soon as one call fails.
   */
  function TranslateAll(parts: seq<string>, translate: string -> Option<string>): (r: Option<seq<string>>)
    ensures r.Some? <==> forall i :: 0 <= i < |parts| ==> translate(parts[i]).Some?
    ensures r.Some? ==> |r.value| == |parts|
    ensures r.Some? ==> forall i :: 0 <= i < |parts| ==> r.value[i] == translate(parts[i]).value
  {
    if parts == [] then Some([])
    else
      match translate(parts[0])
      case None => None
      case Some(t) =>
        match TranslateAll(parts[1..], translate)
        case None => None
        case Some(ts) => Some([t] + ts)
  }

  /** The position of the slice whose translation raised first. */
  function FirstFailure(parts: seq<string>, translate: string -> Option<string>): (k: nat)
    requires TranslateAll(parts, translate).None?
    ensures k < |parts| && translate(parts[k]).None?
    ensures forall i :: 0 <= i < k ==> translate(parts[i]).Some?
  {
    if translate(parts[0]).None? then 0
    else 1 + FirstFailure(parts[1..], translate)
  }

  /**
   * translate_to_spanish: `r` is the returned text, `warned` says whether the
   * warning about a failed translation is shown, and `calls` lists the
   * arguments handed to the translation service, in call order.
   */
  method TranslateToSpanish(text: string, translate: string -> Option<string>)
    returns (r: string, warned: bool, calls: seq<string>)
    ensures IsSentinel(text) ==> r == NoDescription && !warned && calls == []
    ensures !IsSentinel(text) && TranslateAll(Chunks(text), translate).Some? ==>
      && r == Join(TranslateAll(Chunks(text), translate).value)
      && !warned
      && calls == Chunks(text)
    ensures !IsSentinel(text) && TranslateAll(Chunks(text), translate).None? ==>
      && r == text
      && warned
      && calls == Chunks(text)[..FirstFailure(Chunks(text), translate) + 1]
  {
    if IsSentinel(text) {
      return NoDescription, false, [];
    }
    var parts := Chunks(text);
    var translatedParts: seq<string> := [];
    calls := [];
    var i := 0;
    while i < |parts|
      invariant 0 <= i <= |parts|
      invariant calls == parts[..i]
      invariant |translatedParts| == i
      invariant forall j :: 0 <= j < i ==> translate(parts[j]).Some?
      invariant forall j :: 0 <= j < i ==> translatedParts[j] == translate(parts[j]).value
    {
      calls := calls + [parts[i]];
      var translation := translate(parts[i]);
      if translation.None? {
        // the exception is caught: warn and give the original text back
        assert calls == parts[..i + 1];
        return text, true, calls;
      }
      translatedParts := translatedParts + [translation.value];
      i := i + 1;
    }
    assert calls == parts;
    assert translatedParts == TranslateAll(parts, translate).value;
    r := Join(translatedParts);
    warned := false;
  }

  /** A slice from the middle of the text after dropping its first MaxLength characters. */
  lemma ChunkShift(text: string, i: nat)
    requires |text| > MaxLength
    requires i < ChunkCount(|text|) - 1
    ensures i + 1 < ChunkCount(|text|) && i < ChunkCount(|text| - MaxLength)
    ensures Chunks(text)[i + 1] == Chunks(text[MaxLength..])[i]
  {
  }

  /** A text that fits in one slice is its own only slice. */
  lemma ChunksSingle(text: string)
    requires 0 < |text| <= MaxLength
    ensures Chunks(text) == [text]
  {
    assert ChunkCount(|text|) == 1;
    assert text[0..|text|] == text;
  }

  /** Cutting off the first slice leaves the slices of the remaining text. */
  lemma ChunksUnfold(text: string)
    requires |text| > MaxLength
    ensures Chunks(text) == [text[..MaxLength]] + Chunks(text[MaxLength..])
  {
    var a, b := Chunks(text), Chunks(text[MaxLength..]);
    assert ChunkCount(|text|) == ChunkCount(|text| - MaxLength) + 1;
    forall i | 0 <= i < |b|
      ensures a[i + 1] == b[i]
    {
      ChunkShift(text, i);
    }
    assert a == [a[0]] + b;
  }

  /** Laying the slices end to end gives back the text exactly. */
  lemma {:induction false} ConcatChunks(text: string)
    ensures Concat(Chunks(text)) == text
    decreases |text|
  {
    if |text| == 0 {
      assert Chunks(text) == [];
    } else if |text| <= MaxLength {
      ChunksSingle(text);
    } else {
      ChunksUnfold(text);
      ConcatChunks(text[MaxLength..]);
      assert Chunks(text)[1..] == Chunks(text[MaxLength..]);
      assert text == text[..MaxLength] + text[MaxLength..];
    }
  }

  /**
   * The slice sizes: there are ceil(|text| / MaxLength) of them, none is empty
   * and none is longer than MaxLength, and all but the last are exactly MaxLength.
   */
  lemma ChunkSizes(text: string)
    ensures |Chunks(text)| == 0 <==> text == []
    ensures |Chunks(text)| > 0 ==> (|Chunks(text)| - 1) * MaxLength < |text| <= |Chunks(text)| * MaxLength
    ensures forall i :: 0 <= i < |Chunks(text)| ==> 0 < |Chunks(text)[i]| <= MaxLength
    ensures forall i :: 0 <= i < |Chunks(text)| - 1 ==> |Chunks(text)[i]| == MaxLength
  {
  }

  /** A 12000-character text goes out as three slices of 5000, 5000 and 2000 characters. */
  lemma TwelveThousandCharacters(text: string)
    requires |text| == 12000
    ensures |Chunks(text)| == 3
    ensures |Chunks(text)[0]| == 5000 && |Chunks(text)[1]| == 5000 && |Chunks(text)[2]| == 2000
  {
  }

  /** A text that fits in one slice goes out whole, and its translation is returned as is. */
  lemma ShortTextOneCall(text: string, translate: string -> Option<string>)
    requires 0 < |text| <= MaxLength
    requires translate(text).Some?
    ensures Chunks(text) == [text]
    ensures Join(TranslateAll(Chunks(text), translate).value) == translate(text).value
  {
    ChunksSingle(text);
  }

  /** The joined text holds every translated slice plus one space between neighbours. */
  lemma {:induction false} JoinLength(parts: seq<string>)
    requires parts != []
    ensures |Join(parts)| == |Concat(parts)| + |parts| - 1
  {
    if |parts| > 1 {
      JoinLength(parts[1..]);
    }
  }

  /** Appending a slice to the list adds one space and the slice at the end. */
  lemma {:induction false} JoinAppend(parts: seq<string>, last: string)
    requires parts != []
    ensures Join(parts + [last]) == Join(parts) + " " + last
  {
    if |parts| == 1 {
      assert parts + [last] == [parts[0], last];
    } else {
      assert (parts + [last])[1..] == parts[1..] + [last];
      JoinAppend(parts[1..], last);
    }
  }
}
