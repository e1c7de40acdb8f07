/** `extractErrorDetail`, which each downstream client carries an identical private copy of:
    it pulls a human-readable detail out of an HTTP error body.

    The two regular expressions it uses are hand-coded as scanners:
      "message"\s*:\s*"([^"]+)"        (MESSAGE_FIELD_PATTERN)
      \[Chaos Engineering\]\s*(.+)     (CHAOS_MESSAGE_PATTERN)
    Next to each scanner stands a declarative description of what the pattern matches at a
    position, and lemmas show that the scanner finds exactly the leftmost match that
    `Matcher.find()` reports, with the group that the backtracking engine captures. */
module ErrorDetail {
  import opened Wrappers
  import opened JavaText

  const MessageKey: string := "\"message\""
  const ChaosMarker: string := "[Chaos Engineering]"
  const ChaosPrefix: string := "[Chaos Engineering] "
  const UnknownError: string := "Unknown error"
  const FallbackLimit: nat := 200
  const Ellipsis: string := "..."

  // ---------------------------------------------------------------------------------------
  // The message field:  "message"\s*:\s*"([^"]+)"
  // ---------------------------------------------------------------------------------------

  /** A match of the message-field pattern that starts at `i`, with its colon at `a`, its
      opening quote at `b` and its closing quote at `e`; the captured group is `s[b + 1..e]`. */
  ghost predicate FieldMatch(s: string, i: int, a: int, b: int, e: int) {
    && 0 <= i && i + |MessageKey| <= a < b && b + 1 < e < |s|
    && s[i..i + |MessageKey|] == MessageKey
    && (forall k :: i + |MessageKey| <= k < a ==> IsRegexSpace(s[k]))
    && s[a] == ':'
    && (forall k :: a < k < b ==> IsRegexSpace(s[k]))
    && s[b] == '"'
    && (forall k :: b < k < e ==> s[k] != '"')
    && s[e] == '"'
  }

  /** The pattern matches somewhere starting at `i`. */
  ghost predicate FieldMatchesAt(s: string, i: int) {
    exists a, b, e :: FieldMatch(s, i, a, b, e)
  }

  /** A match starts inside the string. */
  lemma FieldMatchWithin(s: string, i: int)
    ensures FieldMatchesAt(s, i) ==> 0 <= i < |s|
  {
    if FieldMatchesAt(s, i) {
      var a, b, e :| FieldMatch(s, i, a, b, e);
    }
  }

  /** The pattern matches at `i` and captures `text`. */
  ghost predicate FieldTextAt(s: string, i: int, text: string) {
    exists a, b, e :: FieldMatch(s, i, a, b, e) && text == s[b + 1..e]
  }

  /** The first index at or after `i` that is not a `\s` character, or `|s|`. */
  function SkipSpaces(s: string, i: nat): (j: nat)
    requires i <= |s|
    ensures i <= j <= |s|
    ensures forall k :: i <= k < j ==> IsRegexSpace(s[k])
    ensures j < |s| ==> !IsRegexSpace(s[j])
    decreases |s| - i
  {
    if i < |s| && IsRegexSpace(s[i]) then SkipSpaces(s, i + 1) else i
  }

  /** The first index at or after `i` holding a double quote, or `|s|`. */
  function SkipToQuote(s: string, i: nat): (j: nat)
    requires i <= |s|
    ensures i <= j <= |s|
    ensures forall k :: i <= k < j ==> s[k] != '"'
    ensures j < |s| ==> s[j] == '"'
    decreases |s| - i
  {
    if i < |s| && s[i] != '"' then SkipToQuote(s, i + 1) else i
  }

  /** The scanner for the message-field pattern anchored at `i`. */
  function MessageFieldAt(s: string, i: nat): (r: Option<string>)
    requires i <= |s|
    ensures r.Some? ==> r.value != [] && '"' !in r.value
  {
    if i + |MessageKey| <= |s| && s[i..i + |MessageKey|] == MessageKey then
      var a := SkipSpaces(s, i + |MessageKey|);
      if a < |s| && s[a] == ':' then
        var b := SkipSpaces(s, a + 1);
        if b < |s| && s[b] == '"' then
          var e := SkipToQuote(s, b + 1);
          if b + 1 < e < |s| then Some(s[b + 1..e]) else None
        else None
      else None
    else None
  }

  /** Every match at `i` has the positions the scanner computes: the pattern is unambiguous. */
  lemma FieldMatchIsScanned(s: string, i: nat, a: int, b: int, e: int)
    requires FieldMatch(s, i, a, b, e)
    ensures a == SkipSpaces(s, i + |MessageKey|)
    ensures b == SkipSpaces(s, a + 1)
    ensures e == SkipToQuote(s, b + 1)
  {
    // the character that ends each run cannot belong to it, and vice versa
    var a' := SkipSpaces(s, i + |MessageKey|);
    assert !IsRegexSpace(s[a]);
    assert !IsRegexSpace(s[a']);
    var b' := SkipSpaces(s, a + 1);
    assert !IsRegexSpace(s[b]);
    assert !IsRegexSpace(s[b']);
    var e' := SkipToQuote(s, b + 1);
    assert s[e] == '"';
    assert s[e'] == '"';
  }

  /** What the scanner returns is a match of the pattern at `i`. */
  lemma MessageFieldAtSound(s: string, i: nat)
    requires i <= |s|
    ensures MessageFieldAt(s, i).Some? ==> FieldTextAt(s, i, MessageFieldAt(s, i).value)
  {
    if MessageFieldAt(s, i).Some? {
      var a := SkipSpaces(s, i + |MessageKey|);
      var b := SkipSpaces(s, a + 1);
      var e := SkipToQuote(s, b + 1);
      assert FieldMatch(s, i, a, b, e);
    }
  }

  /** Every match of the pattern at `i` is found by the scanner, with the same group. */
  lemma MessageFieldAtComplete(s: string, i: nat, a: int, b: int, e: int)
    requires FieldMatch(s, i, a, b, e)
    ensures MessageFieldAt(s, i) == Some(s[b + 1..e])
  {
    FieldMatchIsScanned(s, i, a, b, e);
  }

  /** The scanner agrees with the pattern: it succeeds exactly when the pattern matches at
      `i`, and then returns the one text the pattern can capture there. */
  lemma MessageFieldAtIsMatch(s: string, i: nat)
    requires i <= |s|
    ensures MessageFieldAt(s, i).Some? <==> FieldMatchesAt(s, i)
    ensures MessageFieldAt(s, i).Some? ==> FieldTextAt(s, i, MessageFieldAt(s, i).value)
    ensures forall t :: FieldTextAt(s, i, t) ==> MessageFieldAt(s, i) == Some(t)
  {
    MessageFieldAtSound(s, i);
    forall t | FieldTextAt(s, i, t) ensures MessageFieldAt(s, i) == Some(t) {
      var a, b, e :| FieldMatch(s, i, a, b, e) && t == s[b + 1..e];
      MessageFieldAtComplete(s, i, a, b, e);
    }
    if FieldMatchesAt(s, i) {
      var a, b, e :| FieldMatch(s, i, a, b, e);
      MessageFieldAtComplete(s, i, a, b, e);
    }
  }

  /** `Matcher.find()` for the message-field pattern, searching from `from`. */
  function FindMessageField(s: string, from: nat): (r: Option<string>)
    requires from <= |s|
    ensures r.Some? ==> r.value != [] && '"' !in r.value
    decreases |s| - from
  {
    match MessageFieldAt(s, from)
    case Some(text) => Some(text)
    case None => if from == |s| then None else FindMessageField(s, from + 1)
  }

  /** The search reports the text of the leftmost match, or nothing when there is no match. */
  lemma {:induction false} FindMessageFieldIsLeftmost(s: string, from: nat)
    requires from <= |s|
    ensures FindMessageField(s, from).Some? <==> exists i :: from <= i && FieldMatchesAt(s, i)
    ensures FindMessageField(s, from).Some? ==>
      exists i :: from <= i && FieldTextAt(s, i, FindMessageField(s, from).value)
        && forall j :: from <= j < i ==> !FieldMatchesAt(s, j)
    decreases |s| - from
  {
    MessageFieldAtIsMatch(s, from);
    if MessageFieldAt(s, from).None? {
      if from < |s| {
        FindMessageFieldIsLeftmost(s, from + 1);
        if FindMessageField(s, from).Some? {
          var i :| from + 1 <= i && FieldTextAt(s, i, FindMessageField(s, from).value)
            && forall j :: from + 1 <= j < i ==> !FieldMatchesAt(s, j);
          assert forall j :: from <= j < i ==> !FieldMatchesAt(s, j);
        }
        if exists i :: from <= i && FieldMatchesAt(s, i) {
          var i :| from <= i && FieldMatchesAt(s, i);
          assert i != from;
        }
      } else {
        forall i | from <= i ensures !FieldMatchesAt(s, i) {
          FieldMatchWithin(s, i);
        }
      }
    } else {
      var a, b, e :| FieldMatch(s, from, a, b, e) && MessageFieldAt(s, from).value == s[b + 1..e];
      assert FieldMatchesAt(s, from);
    }
  }

  /** The captured text is never empty and never holds a double quote. */
  lemma FieldTextShape(s: string, i: int, text: string)
    requires FieldTextAt(s, i, text)
    ensures text != [] && '"' !in text
  {
    var a, b, e :| FieldMatch(s, i, a, b, e) && text == s[b + 1..e];
    forall k | 0 <= k < |text| ensures text[k] != '"' {
      assert text[k] == s[b + 1 + k];
    }
  }

  // ---------------------------------------------------------------------------------------
  // The chaos marker:  \[Chaos Engineering\]\s*(.+)
  // ---------------------------------------------------------------------------------------

  /** The pattern can match at `p` with its group starting at `j`: the marker sits at `p`,
      `\s*` covers everything between the marker and `j`, and `.` accepts the character at `j`. */
  ghost predicate ChaosStart(m: string, p: int, j: int) {
    && 0 <= p && p + |ChaosMarker| <= j < |m|
    && m[p..p + |ChaosMarker|] == ChaosMarker
    && (forall k :: p + |ChaosMarker| <= k < j ==> IsRegexSpace(m[k]))
    && !IsLineTerminator(m[j])
  }

  ghost predicate ChaosMatchesAt(m: string, p: int) {
    exists j :: ChaosStart(m, p, j)
  }

  /** A chaos match starts inside the string. */
  lemma ChaosMatchWithin(m: string, p: int)
    ensures ChaosMatchesAt(m, p) ==> 0 <= p < |m|
  {
    if ChaosMatchesAt(m, p) {
      var j :| ChaosStart(m, p, j);
    }
  }

  /** `g` is what the greedy `.+` captures from `j`: the whole run of characters up to the next
      line terminator. */
  ghost predicate LineRun(m: string, j: int, g: string) {
    && 0 <= j && j + |g| <= |m| && g != [] && g == m[j..j + |g|]
    && (forall k :: 0 <= k < |g| ==> !IsLineTerminator(g[k]))
    && (j + |g| == |m| || IsLineTerminator(m[j + |g|]))
  }

  /** Greedy `\s*` gives characters back one by one until `.+` can start, so the group starts
      at the LAST possible start: the pattern at `p` captures `g`. */
  ghost predicate ChaosGroupIs(m: string, p: int, g: string) {
    exists j :: ChaosStart(m, p, j) && (forall j' :: ChaosStart(m, p, j') ==> j' <= j) && LineRun(m, j, g)
  }

  /** The first line terminator at or after `j`, or `|m|`. */
  function LineEnd(m: string, j: nat): (e: nat)
    requires j <= |m|
    ensures j <= e <= |m|
    ensures forall k :: j <= k < e ==> !IsLineTerminator(m[k])
    ensures e < |m| ==> IsLineTerminator(m[e])
    decreases |m| - j
  {
    if j < |m| && !IsLineTerminator(m[j]) then LineEnd(m, j + 1) else j
  }

  /** Backtracking of `\s*`: the greatest index in `lo..j` at which `.` can match. */
  function BacktrackStart(m: string, lo: nat, j: nat): (r: Option<nat>)
    requires lo <= j <= |m|
    ensures r.Some? ==> lo <= r.value <= j && r.value < |m| && !IsLineTerminator(m[r.value])
    ensures r.Some? ==> forall k :: r.value < k <= j && k < |m| ==> IsLineTerminator(m[k])
    ensures r.None? ==> forall k :: lo <= k <= j && k < |m| ==> IsLineTerminator(m[k])
    decreases j - lo
  {
    if j < |m| && !IsLineTerminator(m[j]) then Some(j)
    else if j == lo then None
    else BacktrackStart(m, lo, j - 1)
  }

  /** The scanner for the chaos pattern anchored at `p`. */
  function ChaosGroupAt(m: string, p: nat): Option<string>
    requires p <= |m|
  {
    if p + |ChaosMarker| <= |m| && m[p..p + |ChaosMarker|] == ChaosMarker then
      match BacktrackStart(m, p + |ChaosMarker|, SkipSpaces(m, p + |ChaosMarker|))
      case Some(j) => Some(m[j..LineEnd(m, j)])
      case None => None
    else None
  }

  /** The chaos scanner agrees with the pattern, backtracking included. */
  lemma ChaosGroupAtIsMatch(m: string, p: nat)
    requires p <= |m|
    ensures ChaosGroupAt(m, p).Some? <==> ChaosMatchesAt(m, p)
    ensures ChaosGroupAt(m, p).Some? ==> ChaosGroupIs(m, p, ChaosGroupAt(m, p).value)
  {
    if p + |ChaosMarker| <= |m| && m[p..p + |ChaosMarker|] == ChaosMarker {
      var lo := p + |ChaosMarker|;
      var q := SkipSpaces(m, lo);
      // every possible start lies within the run of spaces after the marker
      forall j' | ChaosStart(m, p, j') ensures j' <= q && !IsLineTerminator(m[j']) {
        assert q < |m| ==> !IsRegexSpace(m[q]);
      }
      if ChaosMatchesAt(m, p) {
        var j' :| ChaosStart(m, p, j');
        assert BacktrackStart(m, lo, q).Some?;
      }
      if BacktrackStart(m, lo, q).Some? {
        var j := BacktrackStart(m, lo, q).value;
        assert ChaosStart(m, p, j);
        var e := LineEnd(m, j);
        assert LineRun(m, j, m[j..e]);
      }
    }
  }

  /** `Matcher.find()` for the chaos pattern, searching from `from`. */
  function FindChaosGroup(m: string, from: nat): Option<string>
    requires from <= |m|
    decreases |m| - from
  {
    match ChaosGroupAt(m, from)
    case Some(g) => Some(g)
    case None => if from == |m| then None else FindChaosGroup(m, from + 1)
  }

  /** The chaos search reports the group of the leftmost marker at which the pattern matches. */
  lemma {:induction false} FindChaosGroupIsLeftmost(m: string, from: nat)
    requires from <= |m|
    ensures FindChaosGroup(m, from).Some? <==> exists p :: from <= p && ChaosMatchesAt(m, p)
    ensures FindChaosGroup(m, from).Some? ==>
      exists p :: from <= p && ChaosGroupIs(m, p, FindChaosGroup(m, from).value)
        && forall p' :: from <= p' < p ==> !ChaosMatchesAt(m, p')
    decreases |m| - from
  {
    ChaosGroupAtIsMatch(m, from);
    if ChaosGroupAt(m, from).None? {
      if from < |m| {
        FindChaosGroupIsLeftmost(m, from + 1);
        if FindChaosGroup(m, from).Some? {
          var p :| from + 1 <= p && ChaosGroupIs(m, p, FindChaosGroup(m, from).value)
            && forall p' :: from + 1 <= p' < p ==> !ChaosMatchesAt(m, p');
          assert forall p' :: from <= p' < p ==> !ChaosMatchesAt(m, p');
        }
        if exists p :: from <= p && ChaosMatchesAt(m, p) {
          var p :| from <= p && ChaosMatchesAt(m, p);
          assert p != from;
        }
      } else {
        forall p | from <= p ensures !ChaosMatchesAt(m, p) {
          ChaosMatchWithin(m, p);
        }
      }
    }
  }

  // ---------------------------------------------------------------------------------------
  // extractErrorDetail
  // ---------------------------------------------------------------------------------------

  /** The fallback: the body itself, cut to 200 characters plus "..." when longer. */
  function Truncate(body: string): (r: string)
    ensures |body| <= FallbackLimit ==> r == body
    ensures |body| > FallbackLimit ==>
      (|r| == FallbackLimit + |Ellipsis| && r[..FallbackLimit] == body[..FallbackLimit] && r[FallbackLimit..] == Ellipsis)
  {
    if |body| > FallbackLimit then body[..FallbackLimit] + Ellipsis else body
  }

  /** `extractErrorDetail(responseBody)`; `None` stands for a null body. */
  function ExtractErrorDetail(responseBody: Option<string>): (r: string)
    ensures r != []
    ensures responseBody.None? || responseBody == Some([]) ==> r == UnknownError
  {
    match responseBody
    case None => UnknownError
    case Some(body) =>
      if body == [] then UnknownError
      else
        match FindMessageField(body, 0)
        case Some(message) =>
          (match FindChaosGroup(message, 0)
           case Some(g) => ChaosPrefix + Trim(g)
           case None => message)
        case None => Truncate(body)
  }

  /** A body with no message field comes back whole up to 200 characters, and otherwise as
      its first 200 characters followed by "...". */
  lemma DetailWithoutMessageField(body: string)
    requires body != []
    requires forall i :: !FieldMatchesAt(body, i)
    ensures |body| <= FallbackLimit ==> ExtractErrorDetail(Some(body)) == body
    ensures |body| > FallbackLimit ==> ExtractErrorDetail(Some(body)) == body[..FallbackLimit] + Ellipsis
    ensures |ExtractErrorDetail(Some(body))| <= FallbackLimit + |Ellipsis|
  {
    FindMessageFieldIsLeftmost(body, 0);
  }

  /** The detail is the text of the FIRST message field when that text carries no chaos
      marker the pattern can match; the text is non-empty and free of double quotes. */
  lemma DetailIsFirstMessageField(body: string, i: nat, text: string)
    requires FieldTextAt(body, i, text)
    requires forall j :: 0 <= j < i ==> !FieldMatchesAt(body, j)
    requires forall p :: !ChaosMatchesAt(text, p)
    ensures ExtractErrorDetail(Some(body)) == text
    ensures text != [] && '"' !in text
  {
    FieldTextShape(body, i, text);
    var a, b, e :| FieldMatch(body, i, a, b, e) && text == body[b + 1..e];
    FirstFieldIsFound(body, i, text);
    FindChaosGroupIsLeftmost(text, 0);
  }

  /** When the first message field carries a chaos marker at which the pattern matches, the
      detail is "[Chaos Engineering] " and the trimmed group of the leftmost such marker;
      everything before that marker is dropped. */
  lemma DetailOfChaosMessage(body: string, i: nat, text: string, p: nat, g: string)
    requires FieldTextAt(body, i, text)
    requires forall j :: 0 <= j < i ==> !FieldMatchesAt(body, j)
    requires ChaosGroupIs(text, p, g)
    requires forall p' :: 0 <= p' < p ==> !ChaosMatchesAt(text, p')
    ensures ExtractErrorDetail(Some(body)) == ChaosPrefix + Trim(g)
  {
    FirstFieldIsFound(body, i, text);
    FirstChaosGroupIsFound(text, p, g);
  }

  /** The chaos search reports the group of the leftmost marker at which the pattern matches. */
  lemma FirstChaosGroupIsFound(text: string, p: nat, g: string)
    requires ChaosGroupIs(text, p, g)
    requires forall p' :: 0 <= p' < p ==> !ChaosMatchesAt(text, p')
    ensures FindChaosGroup(text, 0) == Some(g)
  {
    FindChaosGroupIsLeftmost(text, 0);
    var j :| ChaosStart(text, p, j) && (forall j' :: ChaosStart(text, p, j') ==> j' <= j) && LineRun(text, j, g);
    assert ChaosMatchesAt(text, p);
    var g' := FindChaosGroup(text, 0).value;
    var p' :| 0 <= p' && ChaosGroupIs(text, p', g') && forall p'' :: 0 <= p'' < p' ==> !ChaosMatchesAt(text, p'');
    var j' :| ChaosStart(text, p', j') && (forall j'' :: ChaosStart(text, p', j'') ==> j'' <= j') && LineRun(text, j', g');
    assert ChaosMatchesAt(text, p');
    assert p == p';
    assert j == j';
    LineRunUnique(text, j, g, g');
  }

  lemma LineRunUnique(m: string, j: int, g: string, g': string)
    requires LineRun(m, j, g) && LineRun(m, j, g')
    ensures g == g'
  {
    assert forall k :: 0 <= k < |g| ==> g[k] == m[j + k];
    assert forall k :: 0 <= k < |g'| ==> g'[k] == m[j + k];
    assert |g| == |g'|;
  }

  /** The search for the message field reports the leftmost match's text. */
  lemma FirstFieldIsFound(body: string, i: nat, text: string)
    requires FieldTextAt(body, i, text)
    requires forall j :: 0 <= j < i ==> !FieldMatchesAt(body, j)
    ensures body != [] && FindMessageField(body, 0) == Some(text)
  {
    var a, b, e :| FieldMatch(body, i, a, b, e) && text == body[b + 1..e];
    assert FieldMatchesAt(body, i);
    FindMessageFieldIsLeftmost(body, 0);
    var t := FindMessageField(body, 0).value;
    var i' :| 0 <= i' && FieldTextAt(body, i', t) && forall j :: 0 <= j < i' ==> !FieldMatchesAt(body, j);
    var a', b', e' :| FieldMatch(body, i', a', b', e') && t == body[b' + 1..e'];
    assert FieldMatchesAt(body, i');
    assert i == i';
    MessageFieldAtIsMatch(body, i);
  }

  /** A marker followed only by blanks: `\s*` hands its last blank back to `.+`, which trims
      to nothing, so the detail is the prefix with its trailing space and no text. */
  lemma ChaosMarkerWithBlankRemainder()
    ensures ExtractErrorDetail(Some("{" + MessageKey + ":\"" + ChaosMarker + "  \"}")) == ChaosPrefix
  {
    var text := ChaosMarker + "  ";
    var body := "{" + MessageKey + ":\"" + text + "\"}";
    assert body == "{" + MessageKey + ":\"" + ChaosMarker + "  \"}";
    assert body[1..10] == MessageKey && body[12..33] == text;
    assert FieldMatch(body, 1, 10, 11, 33);
    assert body[0] == '{';
    assert FieldTextAt(body, 1, text);
    assert text[0..19] == ChaosMarker;
    assert ChaosStart(text, 0, 20);
    assert LineRun(text, 20, " ");
    DetailOfChaosMessage(body, 1, text, 0, " ");
    assert Trim(" ") == "";
  }

  /** Text in front of the marker is dropped and the remainder is trimmed. */
  lemma ChaosMarkerDropsLeadingText()
    ensures ExtractErrorDetail(Some(MessageKey + ":\"Bay 3: " + ChaosMarker + " Overload \"")) == ChaosPrefix + "Overload"
  {
    var text := "Bay 3: " + ChaosMarker + " Overload ";
    var body := MessageKey + ":\"" + text + "\"";
    OverloadField(body, text);
    OverloadChaosGroup(text);
    DetailOfChaosMessage(body, 0, text, 7, "Overload ");
    assert KeptStart("Overload ", 0) == 0;
    assert KeptEnd("Overload ", 0, 9) == 8;
  }

  lemma OverloadField(body: string, text: string)
    requires text == "Bay 3: " + ChaosMarker + " Overload "
    requires body == MessageKey + ":\"" + text + "\""
    ensures body == MessageKey + ":\"Bay 3: " + ChaosMarker + " Overload \""
    ensures FieldTextAt(body, 0, text)
  {
    assert body[0..9] == MessageKey && body[11..47] == text;
    assert FieldMatch(body, 0, 9, 10, 47);
  }

  lemma OverloadChaosGroup(text: string)
    requires text == "Bay 3: " + ChaosMarker + " Overload "
    ensures ChaosGroupIs(text, 7, "Overload ")
    ensures forall p :: 0 <= p < 7 ==> !ChaosMatchesAt(text, p)
  {
    assert text[7..26] == ChaosMarker;
    assert ChaosStart(text, 7, 27);
    assert LineRun(text, 27, "Overload ");
    forall p | 0 <= p < 7 ensures !ChaosMatchesAt(text, p) {
      assert text[..7] == "Bay 3: ";
      assert text[p] == text[..7][p] != '[';
      assert text[p..p + 19][0] == text[p];
    }
  }
}
