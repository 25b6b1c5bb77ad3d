/**
 panel/internal/diagnostic/model.go: a diagnostic result is cleaned, validated and cut down until its
 JSON fits in one WebSocket message.
 */
module Diagnostic {
  import opened Text
  import opened Utf8
  import opened Wrappers

  const MAX_CHECKS: nat := 128
  const MAX_RESULT_BYTES: nat := 60 * 1024
  const MAX_DETAIL_BYTES: nat := 512
  const MAX_LABEL_BYTES: nat := 128
  const MAX_ENDPOINT_BYTES: nat := 256
  const MAX_PROTOCOL_BYTES: nat := 16
  const REQUEST_ID_ENCODED_BYTES: nat := 32

  // SafeText ---------------------------------------------------------------------------------------

  predicate Control(c: char) {
    c as int < 0x20 || c as int == 0x7f
  }

  function Cleaned(s: string): (t: string)
    ensures |t| == |s|
    ensures forall i :: 0 <= i < |s| ==> t[i] == if Control(s[i]) then ' ' else s[i]
  {
    seq(|s|, i requires 0 <= i < |s| => if Control(s[i]) then ' ' else s[i])
  }

  /** How many code points of `s` fit whole in `max` octets. */
  function Fitting(s: string, max: nat): (n: nat)
    ensures n <= |s|
  {
    if s == "" || |Encode(s[0])| > max then 0 else 1 + Fitting(s[1..], max - |Encode(s[0])|)
  }

  /** It is the most that fit. */
  lemma {:induction false} FittingIsLongest(s: string, max: nat)
    ensures |EncodeAll(s[..Fitting(s, max)])| <= max
    ensures Fitting(s, max) < |s| ==> |EncodeAll(s[..Fitting(s, max) + 1])| > max
  {
    hide Encode;
    if s != "" && |Encode(s[0])| <= max {
      var n := Fitting(s[1..], max - |Encode(s[0])|);
      FittingIsLongest(s[1..], max - |Encode(s[0])|);
      assert s[..n + 1][1..] == s[1..][..n];
      if n + 1 < |s| {
        assert s[..n + 2][1..] == s[1..][..n + 1];
      }
    } else if s != "" {
      assert EncodeAll(s[..1]) == Encode(s[0]) + EncodeAll(s[..1][1..]);
    }
  }

  /** What `SafeText` makes of a text, in code points. */
  function Safe(value: seq<byte>, max: nat): (s: string) {
    var clean := Cleaned(TrimSpace(Runes(value)));
    if |EncodeAll(clean)| <= max then clean else TrimSpace(clean[..Fitting(clean, max)])
  }

  /** `cut` is where walking back from octet `max` to a starting octet ends. */
  ghost predicate WalkedBack(text: seq<byte>, cut: nat, max: nat) {
    && cut <= max < |text| && (cut == 0 || Starts(text[cut]))
    && forall i :: cut < i <= max ==> !Starts(text[i])
  }

  /** The walk never stops inside the first code point, so it goes on in what follows it. */
  lemma WalkPastFirst(first: seq<byte>, rest: seq<byte>, cut: nat, max: nat)
    requires first != [] && forall i :: 1 <= i < |first| ==> !Starts(first[i])
    requires WalkedBack(first + rest, cut, max) && (rest != [] ==> Starts(rest[0]))
    ensures max < |first| ==> cut == 0
    ensures max >= |first| ==> cut >= |first| && WalkedBack(rest, cut - |first|, max - |first|)
                               && (first + rest)[..cut] == first + rest[..cut - |first|]
  {
    var text := first + rest;
    assert forall i :: 0 < i < |first| ==> text[i] == first[i];
    assert forall i :: 0 <= i < |rest| ==> rest[i] == text[|first| + i];
  }

  lemma FirstStep(s: string, cut: nat, max: nat)
    requires WalkedBack(EncodeAll(s), cut, max)
    ensures s != ""
    ensures var first, rest := Encode(s[0]), EncodeAll(s[1..]);
            && EncodeAll(s) == first + rest && (max < |first| ==> cut == 0)
            && (max >= |first| ==> cut >= |first| && WalkedBack(rest, cut - |first|, max - |first|)
                                   && EncodeAll(s)[..cut] == first + rest[..cut - |first|])
  {
    WalkPastFirst(Encode(s[0]), EncodeAll(s[1..]), cut, max);
  }

  /** The walk ends where the last code point that fits ends. */
  lemma {:induction false} CutIsBoundary(s: string, cut: nat, max: nat)
    requires WalkedBack(EncodeAll(s), cut, max)
    ensures EncodeAll(s)[..cut] == EncodeAll(s[..Fitting(s, max)])
    decreases |s|
  {
    hide Encode, WalkedBack, Starts;
    FirstStep(s, cut, max);
    var first := Encode(s[0]);
    if |first| <= max {
      CutIsBoundary(s[1..], cut - |first|, max - |first|);
      EncodedPrefix(s, Fitting(s[1..], max - |first|));
    }
  }

  lemma EncodedPrefix(s: string, n: nat)
    requires n < |s|
    ensures EncodeAll(s[..n + 1]) == Encode(s[0]) + EncodeAll(s[1..][..n])
  {
    hide Encode;
    assert s[..n + 1][1..] == s[1..][..n];
  }

  /** `clean` is `t` with a space for every control character. */
  ghost predicate Blanked(t: string, clean: string) {
    |clean| == |t| && forall i :: 0 <= i < |t| ==> clean[i] == if t[i] as int < 32 || t[i] as int == 127 then ' ' else t[i]
  }

  /** `kept` is the longest beginning of `clean` that fits in `max` octets. */
  ghost predicate LongestBeginning(clean: string, kept: string, max: nat) {
    && kept <= clean && |EncodeAll(kept)| <= max
    && (|kept| < |clean| ==> |EncodeAll(clean[..|kept| + 1])| > max)
  }

  /** What is sent of a text: all of its visible part when that fits, and otherwise its longest beginning that
      does, without white space at the end of that; control characters as spaces. */
  ghost predicate Shown(value: seq<byte>, max: nat, out: seq<byte>) {
    exists t, clean, kept ::
      && Trimmed(Runes(value), t) && Blanked(t, clean) && LongestBeginning(clean, kept, max)
      && if kept == clean then out == EncodeAll(clean) else exists u :: Trimmed(kept, u) && out == EncodeAll(u)
  }

  lemma CleanedIs(t: string)
    ensures Blanked(t, Cleaned(t))
  {
  }

  lemma WholeShows(value: seq<byte>, max: nat, t: string, clean: string)
    requires Trimmed(Runes(value), t) && Blanked(t, clean) && |EncodeAll(clean)| <= max
    ensures Shown(value, max, EncodeAll(clean))
  {
    hide Runes, Trimmed, Blanked, EncodeAll;
    assert LongestBeginning(clean, clean, max);
  }

  lemma PartShows(value: seq<byte>, max: nat, t: string, clean: string, n: nat)
    requires Trimmed(Runes(value), t) && Blanked(t, clean) && |EncodeAll(clean)| > max && n == Fitting(clean, max)
    ensures Shown(value, max, EncodeAll(TrimSpace(clean[..n])))
  {
    FittingIsLongest(clean, max);
    hide Runes, Trimmed, Blanked, EncodeAll, TrimSpace, Fitting;
    var kept := clean[..n];
    TrimSpaceIs(kept);
    assert n == |clean| ==> kept == clean;
    assert LongestBeginning(clean, kept, max) && kept != clean;
  }

  lemma SafeShows(value: seq<byte>, max: nat)
    ensures Shown(value, max, EncodeAll(Safe(value, max)))
  {
    hide Cleaned, Runes, TrimSpace, Trimmed, Blanked, Shown, EncodeAll, Fitting;
    var t := TrimSpace(Runes(value));
    TrimSpaceIs(Runes(value));
    CleanedIs(t);
    if |EncodeAll(Cleaned(t))| <= max {
      WholeShows(value, max, t, Cleaned(t));
    } else {
      PartShows(value, max, t, Cleaned(t), Fitting(Cleaned(t), max));
    }
  }

  method SafeText(value: seq<byte>, maxBytes: nat) returns (out: seq<byte>)
    ensures out == EncodeAll(Safe(value, maxBytes))
    ensures Shown(value, maxBytes, out)
  {
    SafeShows(value, maxBytes);
    hide Shown;
    var clean := Cleaned(TrimSpace(Runes(value)));
    var text := EncodeAll(clean);
    if |text| <= maxBytes {
      return text;
    }
    var cut := maxBytes;
    while cut > 0 && !Starts(text[cut])
      invariant 0 <= cut <= maxBytes
      invariant forall i :: cut < i <= maxBytes ==> !Starts(text[i])
    {
      cut := cut - 1;
    }
    CutIsBoundary(clean, cut, maxBytes);
    EncodeDecode(clean[..Fitting(clean, maxBytes)]);
    return EncodeAll(TrimSpace(Runes(text[..cut])));
  }

  predicate ValidText(value: seq<byte>, max: nat) {
    ValidString(value) && |value| <= max && forall c :: c in Runes(value) ==> 32 <= c as int && c as int != 127
  }

  /** `validText`. */
  method TextIsValid(value: seq<byte>, max: nat) returns (ok: bool)
    ensures ok <==> ValidText(value, max)
  {
    if !ValidString(value) || |value| > max {
      return false;
    }
    var runes := Runes(value);
    hide Runes, ValidString;
    for i := 0 to |runes|
      invariant forall k :: 0 <= k < i ==> 32 <= runes[k] as int && runes[k] as int != 127
    {
      if Control(runes[i]) {
        assert runes[i] in Runes(value);
        return false;
      }
    }
    return true;
  }

  lemma {:induction false} TrimmedPart(s: string)
    ensures |TrimSpace(s)| <= |s| && |EncodeAll(TrimSpace(s))| <= |EncodeAll(s)|
    ensures forall c :: c in TrimSpace(s) ==> c in s
    ensures TrimSpace(TrimSpace(s)) == TrimSpace(s)
    decreases |s|
  {
    hide Encode, Space;
    if s != "" && Space(s[0]) {
      TrimmedPart(s[1..]);
    } else if s != "" && Space(s[|s| - 1]) {
      TrimmedPart(s[..|s| - 1]);
      EncodeConcat(s[..|s| - 1], s[|s| - 1..]);
      assert s[..|s| - 1] + s[|s| - 1..] == s;
    }
  }

  /** Cleaned text always passes the check the panel makes. */
  lemma SafeIsValid(value: seq<byte>, max: nat)
    ensures ValidText(EncodeAll(Safe(value, max)), max)
  {
    var clean := Cleaned(TrimSpace(Runes(value)));
    assert forall c :: c in clean ==> !Control(c);
    var kept := clean[..Fitting(clean, max)];
    FittingIsLongest(clean, max);
    TrimmedPart(kept);
    EncodeDecode(Safe(value, max));
    hide Cleaned, Runes, EncodeAll, TrimSpace, Fitting, ValidString;
    assert forall c :: c in kept ==> c in clean;
  }

  lemma NothingToClean(t: string)
    requires forall c :: c in t ==> 32 <= c as int && c as int != 127
    ensures Cleaned(t) == t
  {
    assert forall i :: 0 <= i < |t| ==> t[i] in t;
  }

  /** Text comes back unchanged exactly when it is valid and neither starts nor ends with white space. */
  lemma SafeFixes(value: seq<byte>, max: nat)
    ensures EncodeAll(Safe(value, max)) == value <==> ValidText(value, max) && TrimSpace(Runes(value)) == Runes(value)
  {
    var trimmed := TrimSpace(Runes(value));
    var clean := Cleaned(trimmed);
    ValidIffEncoded(value);
    SafeIsValid(value, max);
    EncodeDecode(Safe(value, max));
    TrimmedPart(Runes(value));
    TrimmedPart(clean[..Fitting(clean, max)]);
    hide Runes, EncodeAll, TrimSpace, Fitting, ValidString;
    if EncodeAll(Safe(value, max)) == value && |EncodeAll(clean)| <= max {
      TrimmedWhole(Runes(value));
    }
    if ValidText(value, max) && trimmed == Runes(value) {
      NothingToClean(trimmed);
    }
  }

  lemma {:induction false} TrimmedWhole(s: string)
    ensures |TrimSpace(s)| == |s| ==> TrimSpace(s) == s
  {
    hide Space;
    if s != "" && Space(s[0]) {
      TrimmedPart(s[1..]);
    } else if s != "" && Space(s[|s| - 1]) {
      TrimmedPart(s[..|s| - 1]);
    }
  }

  // Results ----------------------------------------------------------------------------------------

  datatype Check = Check(code: string, status: string, resourceID: Option<int>, name: seq<byte>, endpoint: seq<byte>,
                         protocol: seq<byte>, latencyMS: Option<int>, expiresAt: Option<int>, remainingDays: Option<int>, detail: seq<byte>)

  datatype Report = Report(kind: string, requestID: string, startedAt: int, durationMS: int, checks: seq<Check>)

  datatype Failure = InvalidResult

  const ALLOWED_CODES: set<string> := {
    "agent.connected", "config.version", "config.sync", "xray.service", "xray.config", "xray.listener", "realm.service",
    "realm.listener", "relay.dns", "relay.target_tcp", "tls.certificate", "panel.entry_tcp", "protocol.end_to_end",
    "diagnostic.truncated"
  }

  const ALLOWED_STATUSES: set<string> := {"pass", "warning", "fail", "skipped"}

  /** The parts of validCheck that do not look at a text. */
  predicate ValidFields(c: Check) {
    && c.code in {"agent.connected", "config.version", "config.sync", "xray.service", "xray.config", "xray.listener", "realm.service",
                  "realm.listener", "relay.dns", "relay.target_tcp", "tls.certificate", "panel.entry_tcp", "protocol.end_to_end",
                  "diagnostic.truncated"}
    && c.status in {"pass", "warning", "fail", "skipped"}
    && (c.resourceID.Some? ==> c.resourceID.value > 0)
    && (c.latencyMS.Some? ==> 0 <= c.latencyMS.value <= 60000)
    && (c.expiresAt.Some? ==> c.expiresAt.value > 0)
    && (c.remainingDays.Some? ==> c.remainingDays.value >= 0)
  }

  predicate ValidCheck(c: Check) {
    && ValidFields(c)
    && ValidText(c.name, 128) && ValidText(c.endpoint, 256) && ValidText(c.protocol, 16) && ValidText(c.detail, 512)
  }

  predicate HexDigit(c: char) {
    '0' <= c <= '9' || 'a' <= c <= 'f' || 'A' <= c <= 'F'
  }

  predicate ValidRequestID(id: string) {
    |id| == 32 && forall c :: c in id ==> '0' <= c <= '9' || 'a' <= c <= 'f' || 'A' <= c <= 'F'
  }

  predicate ValidHeader(r: Report) {
    r.kind == "diagnostic_result" && ValidRequestID(r.requestID) && r.startedAt > 0 && 0 <= r.durationMS <= 60000
  }

  predicate ValidateResult(r: Report) {
    ValidHeader(r) && |r.checks| <= 128 && forall c :: c in r.checks ==> ValidCheck(c)
  }

  /** `validCheck`. */
  method CheckIsValid(c: Check) returns (ok: bool)
    ensures ok <==> ValidCheck(c)
  {
    hide ValidText;
    if c.code !in ALLOWED_CODES || c.status !in ALLOWED_STATUSES {
      return false;
    }
    var name := TextIsValid(c.name, MAX_LABEL_BYTES);
    var endpoint := TextIsValid(c.endpoint, MAX_ENDPOINT_BYTES);
    var protocol := TextIsValid(c.protocol, MAX_PROTOCOL_BYTES);
    var detail := TextIsValid(c.detail, MAX_DETAIL_BYTES);
    if !name || !endpoint || !protocol || !detail {
      return false;
    }
    if c.resourceID.Some? && c.resourceID.value <= 0 {
      return false;
    }
    if c.latencyMS.Some? && (c.latencyMS.value < 0 || c.latencyMS.value > 60000) {
      return false;
    }
    if c.expiresAt.Some? && c.expiresAt.value <= 0 {
      return false;
    }
    return c.remainingDays.None? || c.remainingDays.value >= 0;
  }

  /** `ValidRequestID`. */
  method IDIsValid(id: string) returns (ok: bool)
    ensures ok <==> ValidRequestID(id)
  {
    if |id| != REQUEST_ID_ENCODED_BYTES {
      return false;
    }
    for i := 0 to |id|
      invariant forall k :: 0 <= k < i ==> HexDigit(id[k])
    {
      if !HexDigit(id[i]) {
        assert id[i] in id;
        return false;
      }
    }
    return true;
  }

  /** `ValidateResult`. */
  method ResultIsValid(value: Report) returns (ok: bool)
    ensures ok <==> ValidateResult(value)
  {
    hide ValidCheck, ValidRequestID;
    var id := IDIsValid(value.requestID);
    if value.kind != "diagnostic_result" || !id || value.startedAt <= 0 || value.durationMS < 0 || value.durationMS > 60000
       || |value.checks| > MAX_CHECKS {
      return false;
    }
    for i := 0 to |value.checks|
      invariant forall k :: 0 <= k < i ==> ValidCheck(value.checks[k])
    {
      ok := CheckIsValid(value.checks[i]);
      if !ok {
        return;
      }
    }
    return true;
  }

  function Sanitised(c: Check): (d: Check) {
    c.(name := EncodeAll(Safe(c.name, MAX_LABEL_BYTES)), endpoint := EncodeAll(Safe(c.endpoint, MAX_ENDPOINT_BYTES)),
       protocol := EncodeAll(Safe(c.protocol, MAX_PROTOCOL_BYTES)), detail := EncodeAll(Safe(c.detail, MAX_DETAIL_BYTES)))
  }

  /** A sanitised check is never refused for its texts. */
  lemma OnlyFieldsMatter(c: Check)
    ensures ValidCheck(Sanitised(c)) <==> ValidFields(c)
  {
    SafeIsValid(c.name, MAX_LABEL_BYTES);
    SafeIsValid(c.endpoint, MAX_ENDPOINT_BYTES);
    SafeIsValid(c.protocol, MAX_PROTOCOL_BYTES);
    SafeIsValid(c.detail, MAX_DETAIL_BYTES);
    hide ValidText, Safe, EncodeAll;
  }

  const TRUNCATED_DETAIL: string := "诊断项目过多，结果已按安全限制截断"

  function TruncatedCheck(): (c: Check) {
    Check("diagnostic.truncated", "warning", None, [], [], [], None, None, None, EncodeAll(TRUNCATED_DETAIL))
  }

  lemma {:induction false} EncodedLength(s: string)
    ensures |EncodeAll(s)| <= 4 * |s|
  {
    hide Encode;
    if s != "" {
      EncodedLength(s[1..]);
    }
  }

  lemma TruncatedTexts()
    ensures ValidText(EncodeAll(TRUNCATED_DETAIL), MAX_DETAIL_BYTES) && ValidText([], 0)
  {
    EncodeDecode(TRUNCATED_DETAIL);
    EncodedLength(TRUNCATED_DETAIL);
    hide EncodeAll;
  }

  lemma TruncatedIsValid()
    ensures ValidCheck(TruncatedCheck())
  {
    TruncatedTexts();
    hide EncodeAll, Runes, ValidString;
  }

  /** The first `kept` checks and the note that the rest was left out. */
  function Shortened(r: Report, kept: nat): (short: Report)
    requires kept <= |r.checks|
  {
    r.(checks := r.checks[..kept] + [TruncatedCheck()])
  }

  function SanitisedAll(checks: seq<Check>): (r: seq<Check>)
    ensures |r| == |checks| && forall i :: 0 <= i < |r| ==> r[i] == Sanitised(checks[i])
  {
    seq(|checks|, i requires 0 <= i < |checks| => Sanitised(checks[i]))
  }

  /** The result with its texts cleaned. */
  function CleanOf(value: Report): (clean: Report)
    ensures |clean.checks| == |value.checks|
  {
    value.(kind := "diagnostic_result", checks := SanitisedAll(value.checks))
  }

  /** What `EncodeResult` would like to send. */
  function Whole(value: Report): (whole: Report)
    ensures |whole.checks| <= MAX_CHECKS
  {
    if |value.checks| > MAX_CHECKS then Shortened(CleanOf(value), MAX_CHECKS - 1) else CleanOf(value)
  }

  /** `sent` is the whole result when that fits, and otherwise the longest shortened one that does. */
  ghost predicate LongestThatFits(size: Report -> nat, whole: Report, sent: Report) {
    if size(whole) <= 61440 then sent == whole
    else
      && 1 <= |sent.checks| < |whole.checks| && sent == Shortened(whole, |sent.checks| - 1) && size(sent) <= 61440
      && forall kept: nat :: |sent.checks| <= kept < |whole.checks| - 1 ==> size(Shortened(whole, kept)) > 61440
  }

  ghost predicate NothingFits(size: Report -> nat, whole: Report) {
    && size(whole) > 61440
    && forall kept: nat :: kept < |whole.checks| - 1 ==> size(Shortened(whole, kept)) > 61440
  }

  lemma ShortenedStaysValid(r: Report, kept: nat)
    requires ValidateResult(r) && kept < |r.checks|
    ensures ValidateResult(Shortened(r, kept))
  {
    TruncatedIsValid();
    hide ValidCheck, TruncatedCheck;
  }

  /** Cutting two checks off a shortened list and adding the note is shortening the list once more. */
  lemma ShortenedAgain(r: Report, kept: nat)
    requires 0 < kept <= |r.checks|
    ensures Shortened(Shortened(r, kept), kept - 1) == Shortened(r, kept - 1)
  {
    hide TruncatedCheck;
    assert Shortened(r, kept).checks[..kept - 1] == r.checks[..kept - 1];
  }

  /** `d` is what is sent of the check `c`: the four texts shown within their limits, the rest as it is. */
  ghost predicate Conveys(c: Check, d: Check) {
    && d.code == c.code && d.status == c.status && d.resourceID == c.resourceID
    && d.latencyMS == c.latencyMS && d.expiresAt == c.expiresAt && d.remainingDays == c.remainingDays
    && Shown(c.name, 128, d.name) && Shown(c.endpoint, 256, d.endpoint) && Shown(c.protocol, 16, d.protocol) && Shown(c.detail, 512, d.detail)
  }

  /** The note behind checks that were left out. */
  predicate Note(d: Check) {
    && d.code == "diagnostic.truncated" && d.status == "warning" && d.detail == EncodeAll("诊断项目过多，结果已按安全限制截断")
    && d.name == [] && d.endpoint == [] && d.protocol == []
    && d.resourceID.None? && d.latencyMS.None? && d.expiresAt.None? && d.remainingDays.None?
  }

  /** What is sent conveys the first checks, all of them or with the note behind them. */
  ghost predicate Tells(value: Report, sent: Report) {
    && sent.kind == "diagnostic_result" && sent.requestID == value.requestID
    && sent.startedAt == value.startedAt && sent.durationMS == value.durationMS
    && if |sent.checks| == |value.checks| && (sent.checks == [] || !Note(sent.checks[|sent.checks| - 1]))
       then forall i :: 0 <= i < |sent.checks| ==> Conveys(value.checks[i], sent.checks[i])
       else
         && 0 < |sent.checks| <= |value.checks| && Note(sent.checks[|sent.checks| - 1])
         && forall i :: 0 <= i < |sent.checks| - 1 ==> Conveys(value.checks[i], sent.checks[i])
  }

  lemma SanitisedConveys(c: Check)
    ensures Conveys(c, Sanitised(c))
  {
    SafeShows(c.name, 128);
    SafeShows(c.endpoint, 256);
    SafeShows(c.protocol, 16);
    SafeShows(c.detail, 512);
    hide Shown, Safe, EncodeAll;
  }

  lemma NoteIs()
    ensures Note(TruncatedCheck())
  {
    hide EncodeAll;
  }

  lemma CleanTells(value: Report, clean: Report)
    requires clean == value.(kind := "diagnostic_result", checks := SanitisedAll(value.checks))
    ensures Tells(value, clean) && forall i :: 0 <= i < |clean.checks| ==> Conveys(value.checks[i], clean.checks[i])
  {
    hide Conveys, Note, Sanitised;
    forall i | 0 <= i < |value.checks|
      ensures Conveys(value.checks[i], clean.checks[i])
    {
      SanitisedConveys(value.checks[i]);
    }
  }

  lemma CutTells(value: Report, clean: Report, k: nat, note: Check)
    requires clean == value.(kind := "diagnostic_result", checks := clean.checks) && |clean.checks| == |value.checks| && k < |value.checks|
    requires Note(note) && forall i :: 0 <= i < k ==> Conveys(value.checks[i], clean.checks[i])
    ensures Tells(value, clean.(checks := clean.checks[..k] + [note]))
  {
    hide Conveys, Note;
    var sent := clean.(checks := clean.checks[..k] + [note]);
    assert sent.checks[|sent.checks| - 1] == note;
  }

  lemma WholeTells(value: Report)
    ensures Tells(value, Whole(value))
  {
    CleanIs(value);
    hide Conveys, Note, Tells, CleanOf, TruncatedCheck;
    CleanTells(value, CleanOf(value));
    NoteIs();
    if |value.checks| > MAX_CHECKS {
      CutTells(value, CleanOf(value), MAX_CHECKS - 1, TruncatedCheck());
    }
  }

  lemma CleanIs(value: Report)
    ensures CleanOf(value) == value.(kind := "diagnostic_result", checks := SanitisedAll(value.checks))
    ensures CleanOf(value) == value.(kind := "diagnostic_result", checks := CleanOf(value).checks)
  {
    hide SanitisedAll;
  }

  lemma ShortenedWhole(value: Report, kept: nat)
    requires kept < |Whole(value).checks| - 1
    ensures kept < |value.checks| && Shortened(Whole(value), kept) == Shortened(CleanOf(value), kept)
  {
    hide SanitisedAll, TruncatedCheck;
    assert Whole(value).checks[..kept] == CleanOf(value).checks[..kept];
  }

  lemma ShortenedTells(value: Report, kept: nat)
    requires kept < |Whole(value).checks| - 1
    ensures Tells(value, Shortened(Whole(value), kept))
  {
    CleanIs(value);
    hide Conveys, Note, Tells, CleanOf, TruncatedCheck, Whole;
    CleanTells(value, CleanOf(value));
    NoteIs();
    ShortenedWhole(value, kept);
    CutTells(value, CleanOf(value), kept, TruncatedCheck());
  }

  /** `EncodeResult`, with `size` the length of a result's JSON. What is sent is within the limit and the
      panel accepts it. There is no result exactly when the whole list is invalid or nothing fits. */
  method EncodeResult(value: Report, size: Report -> nat) returns (r: Result<Report, Failure>)
    ensures r.Ok? ==> ValidateResult(r.value) && size(r.value) <= 61440 && LongestThatFits(size, Whole(value), r.value)
    ensures r.Err? <==> !ValidateResult(Whole(value)) || NothingFits(size, Whole(value))
    ensures r.Ok? ==> Tells(value, r.value)
  {
    WholeTells(value);
    hide ValidateResult, NothingFits, Tells, TruncatedCheck, Sanitised;
    var checks := CleanTexts(value.checks);
    if |checks| > MAX_CHECKS {
      checks := checks[..MAX_CHECKS - 1] + [TruncatedCheck()];
    }
    r := CutToSize(value.(kind := "diagnostic_result", checks := checks), size);
    if r.Ok? && r.value != Whole(value) {
      ShortenedTells(value, |r.value.checks| - 1);
    }
  }

  /** The loop over the checks, which cleans the four texts of each. */
  method CleanTexts(given: seq<Check>) returns (checks: seq<Check>)
    ensures checks == SanitisedAll(given)
  {
    checks := given;
    for index := 0 to |given|
      invariant |checks| == |given|
      invariant forall i :: 0 <= i < |checks| ==> checks[i] == if i < index then Sanitised(given[i]) else given[i]
    {
      hide Safe, EncodeAll;
      var c := checks[index];
      var name := SafeText(c.name, MAX_LABEL_BYTES);
      var endpoint := SafeText(c.endpoint, MAX_ENDPOINT_BYTES);
      var protocol := SafeText(c.protocol, MAX_PROTOCOL_BYTES);
      var detail := SafeText(c.detail, MAX_DETAIL_BYTES);
      checks := checks[index := c.(name := name, endpoint := endpoint, protocol := protocol, detail := detail)];
    }
  }

  /** The closing loop: each round drops two checks and adds the note. */
  method CutToSize(whole: Report, size: Report -> nat) returns (r: Result<Report, Failure>)
    ensures r.Ok? ==> ValidateResult(r.value) && size(r.value) <= 61440 && LongestThatFits(size, whole, r.value)
    ensures r.Err? <==> !ValidateResult(whole) || NothingFits(size, whole)
  {
    hide ValidateResult, TruncatedCheck;
    var report := whole;
    while true
      invariant report == whole || (1 <= |report.checks| < |whole.checks| && report == Shortened(whole, |report.checks| - 1))
      invariant report != whole ==> ValidateResult(whole) && ValidateResult(report) && size(whole) > MAX_RESULT_BYTES
      invariant report != whole ==>
                  forall kept: nat :: |report.checks| <= kept < |whole.checks| - 1 ==> size(Shortened(whole, kept)) > MAX_RESULT_BYTES
      decreases |report.checks|
    {
      var valid := ResultIsValid(report);
      if !valid {
        return Err(InvalidResult);
      }
      if size(report) <= MAX_RESULT_BYTES {
        return Ok(report);
      }
      if |report.checks| <= 1 {
        return Err(InvalidResult);
      }
      if report != whole {
        ShortenedAgain(whole, |report.checks| - 1);
      }
      ShortenedStaysValid(whole, |report.checks| - 2);
      report := report.(checks := report.checks[..|report.checks| - 2] + [TruncatedCheck()]);
    }
  }

  // A diagnosis that could not read the desired state ----------------------------------------------

  lemma CodeKept(value: Report, i: nat)
    requires i < |value.checks| && i < MAX_CHECKS - 1
    ensures i < |Whole(value).checks| && Whole(value).checks[i].code == value.checks[i].code
  {
    hide Safe, TruncatedCheck, EncodeAll;
  }

  lemma AllowedCodes(c: Check)
    ensures ValidCheck(c) ==> c.code in ALLOWED_CODES
  {
    hide ValidText;
  }

  /** A check with an unknown code among the first spoils the whole result. */
  lemma UnknownCodeIsFatal(value: Report, i: nat)
    requires i < |value.checks| && i < MAX_CHECKS - 1 && value.checks[i].code !in ALLOWED_CODES
    ensures !ValidateResult(Whole(value))
  {
    hide Whole, ValidCheck;
    CodeKept(value, i);
    AllowedCodes(Whole(value).checks[i]);
    assert Whole(value).checks[i] in Whole(value).checks;
  }

  /** The checks `diagnose` reports when it cannot fetch the desired state. */
  function UnreadableState(detail: seq<byte>, skipped: seq<byte>): (checks: seq<Check>) {
    [ Check("config.desired_state", "fail", None, [], [], [], None, None, None, detail),
      Check("xray.service", "skipped", None, [], [], [], None, None, None, skipped),
      Check("xray.config", "skipped", None, [], [], [], None, None, None, skipped),
      Check("realm.service", "skipped", None, [], [], [], None, None, None, skipped) ]
  }

  /** Its first code is not an allowed one, so whatever the header and the texts, the whole result is
      invalid and EncodeResult never sends it. */
  lemma UnreadableStateIsInvalid(value: Report, detail: seq<byte>, skipped: seq<byte>)
    ensures !ValidateResult(Whole(value.(checks := UnreadableState(detail, skipped))))
  {
    NotAllowed();
    UnknownCodeIsFatal(value.(checks := UnreadableState(detail, skipped)), 0);
  }

  lemma NotAllowed()
    ensures "config.desired_state" !in ALLOWED_CODES
  {
  }
}
