/** The submission guard of the new-fact form: text length, source URL
    protocol and category presence, and the remaining-characters counter
    that is shown beside the text field. */
module Validation {
  import opened Facts
  import opened Options

  /** What `new URL(s)` yields for a string: the parsed URL's `protocol`
      (scheme followed by ':'), or None when the constructor throws.
      URL parsing itself is not modelled; it is a parameter. */
  type UrlParser = string -> Option<string>

  /** The protocols a fact source may have. */
  const HttpProtocols: set<string> := {"http:", "https:"}

  /** The longest text the guard accepts, in UTF-16 code units. */
  const MaxTextLength: nat := 200

  /** JavaScript's `length` of a string: UTF-16 code units, so a character
      outside the Basic Multilingual Plane counts twice. */
  function Utf16Length(s: string): (n: nat)
    ensures |s| <= n <= 2 * |s|
    ensures n == 0 <==> s == []
  {
    if s == [] then 0
    else (if s[0] as int >= 0x1_0000 then 2 else 1) + Utf16Length(s[1..])
  }

  /** The length counter is additive, so typing appends to the count. */
  lemma {:induction false} Utf16LengthAppend(a: string, b: string)
    ensures Utf16Length(a + b) == Utf16Length(a) + Utf16Length(b)
  {
    if a == [] {
      assert a + b == b;
    } else {
      assert (a + b)[0] == a[0];
      assert (a + b)[1..] == a[1..] + b;
      Utf16LengthAppend(a[1..], b);
    }
  }

  /** Every text of at most 100 characters fits, whatever its characters. */
  lemma ShortTextFits(s: string)
    requires |s| <= 100
    ensures Utf16Length(s) <= MaxTextLength
  {
  }

  /** The number shown beside the text field. */
  function RemainingChars(text: string): (n: int)
    ensures n <= MaxTextLength
    ensures n == MaxTextLength <==> text == []
  {
    MaxTextLength as int - Utf16Length(text)
  }

  /** The counter is never negative exactly when the length check passes. */
  lemma RemainingCharsNonNegativeIff(text: string)
    ensures RemainingChars(text) >= 0 <==> Utf16Length(text) <= MaxTextLength
  {
  }

  /** `isValidHttpUrl`: false when parsing throws, otherwise whether the
      protocol is http or https. */
  function IsValidHttpUrl(source: string, parse: UrlParser): (ok: bool)
    ensures parse(source).None? ==> !ok
    ensures parse(source).Some? ==> (ok <==> parse(source).value in HttpProtocols)
  {
    match parse(source)
    case None => false
    case Some(protocol) => protocol == "http:" || protocol == "https:"
  }

  /** The guard of `handleSubmit`: a non-empty text of at most 200 code
      units, an http(s) source and a non-empty category. The category is
      not checked against the listed names. */
  predicate IsSubmittable(text: string, source: string, category: string, parse: UrlParser)
    ensures IsSubmittable(text, source, category, parse) ==>
              1 <= |text| <= MaxTextLength && parse(source).Some? && parse(source).value in HttpProtocols
  {
    text != "" && Utf16Length(text) <= MaxTextLength && IsValidHttpUrl(source, parse) && category != ""
  }

  /** An accepted submission shows a counter between 0 and 199. */
  lemma SubmittableCounterRange(text: string, source: string, category: string, parse: UrlParser)
    requires IsSubmittable(text, source, category, parse)
    ensures 0 <= RemainingChars(text) < MaxTextLength
  {
  }

  /** Breaking any single condition rejects the submission, and meeting all
      of them accepts it. */
  lemma SubmittableConditions(text: string, source: string, category: string, parse: UrlParser)
    ensures text == "" ==> !IsSubmittable(text, source, category, parse)
    ensures RemainingChars(text) < 0 ==> !IsSubmittable(text, source, category, parse)
    ensures parse(source).None? ==> !IsSubmittable(text, source, category, parse)
    ensures parse(source).Some? && parse(source).value !in HttpProtocols ==> !IsSubmittable(text, source, category, parse)
    ensures category == "" ==> !IsSubmittable(text, source, category, parse)
    ensures (text != "" && RemainingChars(text) >= 0 && parse(source).Some? && parse(source).value in HttpProtocols
             && category != "") ==> IsSubmittable(text, source, category, parse)
  {
  }

  /** A category outside the listed names passes the guard: only the form's
      select keeps such values out. */
  lemma UnlistedCategoryPasses(parse: UrlParser)
    requires parse("https://example.org/") == Some("https:")
    ensures "astrology" !in CategoryNames
    ensures IsSubmittable("Mercury is retrograde", "https://example.org/", "astrology", parse)
  {
  }

  /** A text of 201 plain characters is rejected; 200 are accepted. */
  lemma LengthBoundary(parse: UrlParser, t: string)
    requires parse("https://example.org/") == Some("https:")
    requires |t| == 200 && forall i :: 0 <= i < |t| ==> t[i] == 'a'
    ensures IsSubmittable(t, "https://example.org/", "science", parse)
    ensures !IsSubmittable(t + "a", "https://example.org/", "science", parse)
  {
    AsciiLength(t);
    assert Utf16Length("a") == 1;
    Utf16LengthAppend(t, "a");
  }

  /** A string of characters below U+10000 has as many code units as characters. */
  lemma {:induction false} AsciiLength(s: string)
    requires forall i :: 0 <= i < |s| ==> (s[i] as int) < 0x1_0000
    ensures Utf16Length(s) == |s|
  {
    if s != [] {
      AsciiLength(s[1..]);
    }
  }
}
