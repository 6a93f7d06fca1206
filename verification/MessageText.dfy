/**
 Cleaning and validating message text.

 Which characters are control characters and which are white space is decided by the Unicode
 tables of the running Python; every statement here holds for all such tables in which an
 ordinary space is white space and is not a control character.
 */
module MessageText {
  import opened Options

  const MAX_MESSAGE_BYTES: nat := 237

  /** `unsafe` is membership in the categories Cc, Cf and Cs. */
  datatype Unicode = Unicode(unsafe: char -> bool, space: char -> bool)

  predicate Sensible(u: Unicode) {
    u.space(' ') && !u.unsafe(' ')
  }

  /** The number of bytes of one character in UTF-8, section 3 of RFC 3629. */
  function Width(c: char): nat {
    if (c as int) < 0x80 then 1 else if (c as int) < 0x800 then 2 else if (c as int) < 0x10000 then 3 else 4
  }

  function ByteLength(text: string): nat {
    if text == [] then 0 else Width(text[0]) + ByteLength(text[1..])
  }

  predicate StartsWith(s: string, prefix: string) {
    |prefix| <= |s| && s[..|prefix|] == prefix
  }

  function Clean(u: Unicode, text: string): string {
    if text == [] then [] else [if u.unsafe(text[0]) then ' ' else text[0]] + Clean(u, text[1..])
  }

  /** Cutting the encoding after `maximum` bytes and ignoring an incomplete last character. */
  function Fit(text: string, maximum: int): string {
    if text == [] || Width(text[0]) > maximum then []
    else [text[0]] + Fit(text[1..], maximum - Width(text[0]))
  }

  function Sanitize(u: Unicode, text: string, maximum: nat): string {
    Fit(Clean(u, text), maximum)
  }

  function TrimLeft(u: Unicode, text: string): string {
    if text != [] && u.space(text[0]) then TrimLeft(u, text[1..]) else text
  }

  function TrimRight(u: Unicode, text: string): string {
    if text != [] && u.space(text[|text| - 1]) then TrimRight(u, text[..|text| - 1]) else text
  }

  function Strip(u: Unicode, text: string): string {
    TrimRight(u, TrimLeft(u, text))
  }

  datatype Validation = Valid(text: string) | Empty | Control | TooLong

  function Validate(u: Unicode, text: string): Validation {
    var clean := Strip(u, text);
    if clean == [] then Empty
    else if exists c | c in clean :: u.unsafe(c) then Control
    else if ByteLength(clean) > MAX_MESSAGE_BYTES then TooLong
    else Valid(clean)
  }

  lemma {:induction false} FitIsIdentity(text: string, maximum: int)
    requires ByteLength(text) <= maximum
    ensures Fit(text, maximum) == text
  {
    if text != [] {
      FitIsIdentity(text[1..], maximum - Width(text[0]));
    }
  }

  lemma {:induction false} FitFits(text: string, maximum: nat)
    ensures ByteLength(Fit(text, maximum)) <= maximum
    ensures Fit(text, maximum) <= text
  {
    if text != [] && Width(text[0]) <= maximum {
      FitFits(text[1..], maximum - Width(text[0]));
      var rest := Fit(text[1..], maximum - Width(text[0]));
      assert ([text[0]] + rest)[1..] == rest;
      assert text == [text[0]] + text[1..];
    }
  }

  lemma {:induction false} CleanFacts(u: Unicode, text: string)
    requires Sensible(u)
    ensures forall c | c in Clean(u, text) :: !u.unsafe(c)
    ensures (forall c | c in text :: !u.unsafe(c)) ==> Clean(u, text) == text
  {
    if text != [] {
      CleanFacts(u, text[1..]);
      if forall c | c in text :: !u.unsafe(c) {
        assert text[0] in text && forall c | c in text[1..] :: c in text;
        assert text == [text[0]] + text[1..];
      }
    }
  }

  predicate Trimmed(u: Unicode, text: string) {
    text == [] || (!u.space(text[0]) && !u.space(text[|text| - 1]))
  }

  lemma {:induction false} TrimRightFacts(u: Unicode, text: string)
    ensures TrimRight(u, text) <= text
    ensures TrimRight(u, text) != [] ==> !u.space(TrimRight(u, text)[|TrimRight(u, text)| - 1])
  {
    if text != [] && u.space(text[|text| - 1]) {
      TrimRightFacts(u, text[..|text| - 1]);
    }
  }

  lemma {:induction false} TrimLeftFacts(u: Unicode, text: string)
    ensures TrimLeft(u, text) != [] ==> !u.space(TrimLeft(u, text)[0])
  {
    if text != [] && u.space(text[0]) {
      TrimLeftFacts(u, text[1..]);
    }
  }

  lemma StripTrims(u: Unicode, text: string)
    ensures Trimmed(u, Strip(u, text))
    ensures Trimmed(u, text) ==> Strip(u, text) == text
  {
    TrimLeftFacts(u, text);
    TrimRightFacts(u, TrimLeft(u, text));
  }

  /** Cleaning replaces every unsafe character by a space and leaves the others where they are. */
  lemma {:induction false} CleanReplaces(u: Unicode, text: string)
    ensures |Clean(u, text)| == |text|
    ensures forall i | 0 <= i < |text| :: Clean(u, text)[i] == if u.unsafe(text[i]) then ' ' else text[i]
  {
    if text != [] {
      CleanReplaces(u, text[1..]);
    }
  }

  /** Of a text that is too long, as many whole characters are kept as fit. */
  lemma {:induction false} FitIsLongest(text: string, maximum: nat)
    ensures Fit(text, maximum) <= text && ByteLength(Fit(text, maximum)) <= maximum
    ensures |Fit(text, maximum)| < |text| ==> ByteLength(text[..|Fit(text, maximum)| + 1]) > maximum
  {
    FitFits(text, maximum);
    if text != [] {
      if Width(text[0]) <= maximum {
        FitIsLongest(text[1..], maximum - Width(text[0]));
        var n := |Fit(text[1..], maximum - Width(text[0]))|;
        if n < |text[1..]| {
          assert text[..n + 2][1..] == text[1..][..n + 1];
        }
      } else {
        assert text[..1][1..] == [];
      }
    }
  }

  /** A text is accepted for sending exactly when the parser of its echo would keep all of it, and it is not empty. */
  lemma AcceptedIffNothingIsLost(u: Unicode, text: string)
    requires Sensible(u)
    ensures var clean := Strip(u, text);
            && (Validate(u, text).Valid? <==> clean != [] && Sanitize(u, clean, 237) == clean)
            && (Validate(u, text).Valid? ==> Validate(u, text).text == clean)
  {
    var clean := Strip(u, text);
    CleanFacts(u, clean);
    CleanReplaces(u, clean);
    FitFits(Clean(u, clean), 237);
    if ByteLength(clean) <= 237 {
      FitIsIdentity(clean, 237);
    }
    if Sanitize(u, clean, 237) == clean {
      assert |Clean(u, clean)| == |clean|;
      assert Clean(u, clean) == clean;
      forall c | c in clean ensures !u.unsafe(c) {
      }
    }
  }

  predicate AllSpace(u: Unicode, text: string) {
    forall c | c in text :: u.space(c)
  }

  lemma {:induction false} TrimLeftPart(u: Unicode, text: string) returns (a: string)
    ensures text == a + TrimLeft(u, text) && AllSpace(u, a)
  {
    a := [];
    if text != [] && u.space(text[0]) {
      var rest := TrimLeftPart(u, text[1..]);
      a := [text[0]] + rest;
      assert text == [text[0]] + text[1..];
    }
  }

  lemma {:induction false} TrimRightPart(u: Unicode, text: string) returns (b: string)
    ensures text == TrimRight(u, text) + b && AllSpace(u, b)
  {
    b := [];
    if text != [] && u.space(text[|text| - 1]) {
      var last := |text| - 1;
      var rest := TrimRightPart(u, text[..last]);
      b := rest + [text[last]];
      assert text == text[..last] + [text[last]];
    }
  }

  /** Stripping removes white space from the two ends and nothing else. */
  lemma StripIsPart(u: Unicode, text: string)
    ensures exists a, b :: text == a + Strip(u, text) + b && AllSpace(u, a) && AllSpace(u, b)
  {
    var a := TrimLeftPart(u, text);
    var b := TrimRightPart(u, TrimLeft(u, text));
    assert text == a + Strip(u, text) + b;
  }

  /** External text never carries a control character into storage, and never exceeds its byte limit. */
  lemma SanitizedTextIsSafe(u: Unicode, text: string, maximum: nat)
    requires Sensible(u)
    ensures forall c | c in Sanitize(u, text, maximum) :: !u.unsafe(c)
    ensures ByteLength(Sanitize(u, text, maximum)) <= maximum
    ensures Sanitize(u, Sanitize(u, text, maximum), maximum) == Sanitize(u, text, maximum)
  {
    CleanFacts(u, text);
    FitFits(Clean(u, text), maximum);
    CleanFacts(u, Sanitize(u, text, maximum));
    FitIsIdentity(Sanitize(u, text, maximum), maximum);
  }

  /** What the sender validated is exactly what the parser of its echo stores. */
  lemma ValidatedTextSurvivesParsing(u: Unicode, text: string)
    requires Sensible(u) && Validate(u, text).Valid?
    ensures var sent := Validate(u, text).text;
            sent != [] && Strip(u, Sanitize(u, sent, MAX_MESSAGE_BYTES)) == sent
  {
    var sent := Validate(u, text).text;
    StripTrims(u, text);
    CleanFacts(u, sent);
    FitIsIdentity(sent, MAX_MESSAGE_BYTES);
    StripTrims(u, sent);
  }
}
