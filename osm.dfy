/**
 * The OpenStreetMap replication API helpers of src/lib/apis/osm.ts: the path of
 * a minutely diff, the sequence number in `state.txt` and the record built
 * from a changeset-detail response. The HTTP requests themselves are inputs.
 */
module Osm {
  import opened Wrappers
  import opened Decimal
  import opened Helpers
  import opened Types

  const MinuteURL: string := "https://planet.openstreetmap.org/replication/minute/"
  const DiffSuffix: string := ".osc.gz"

  /**
   * The three directory groups of a sequence number: millions, thousands and
   * units. The last two are below 1000, so `pad3` makes them exactly three
   * characters, and the groups recompose to the number.
   */
  function SequenceGroups(id: nat): (g: (nat, nat, nat))
    ensures g.1 < 1000 && g.2 < 1000
    ensures g.0 * 1000000 + g.1 * 1000 + g.2 == id
    ensures id < 1000000000 ==> g.0 < 1000
  {
    var q := id / 1000;
    assert id / 1000000 == q / 1000;
    (id / 1000000, q % 1000, id % 1000)
  }

  /** `getURLForSequenceNumber(id)`: `AAA/BBB/CCC.osc.gz` under the minutely replication base. */
  function URLForSequenceNumber(id: nat): (url: string)
    ensures |url| >= |MinuteURL| + 18
    ensures url[..|MinuteURL|] == MinuteURL && url[|url| - 7..] == DiffSuffix
  {
    var g := SequenceGroups(id);
    MinuteURL + Pad3(g.0) + "/" + Pad3(g.1) + "/" + Pad3(g.2) + DiffSuffix
  }

  /** A diff URL under `base`: a group of at least three characters, two of three, the suffix. */
  predicate DiffURLShape(base: string, url: string) {
    var n := |url|;
    n >= |base| + 18 && url[..|base|] == base && url[n - 7..] == DiffSuffix
    && url[n - 11] == '/' && url[n - 15] == '/'
  }

  /** The three directory groups of a diff URL, read from the right. */
  function URLGroups(base: string, url: string): (string, string, string)
    requires DiffURLShape(base, url)
  {
    var n := |url|;
    (url[|base|..n - 15], url[n - 14..n - 11], url[n - 10..n - 7])
  }

  /** Reads a sequence number back from a diff URL under `base`. */
  function ParseDiffURL(base: string, url: string): Option<nat> {
    if !DiffURLShape(base, url) then None
    else
      var g := URLGroups(base, url);
      if AllDigits(g.0) && AllDigits(g.1) && AllDigits(g.2)
      then Some(DigitsValue(g.0) * 1000000 + DigitsValue(g.1) * 1000 + DigitsValue(g.2))
      else None
  }

  /** Every sequence number is recovered from its URL, so distinct numbers get distinct paths. */
  lemma URLRoundTrip(id: nat)
    ensures ParseDiffURL(MinuteURL, URLForSequenceNumber(id)) == Some(id)
  {
    var g := SequenceGroups(id);
    var url := URLForSequenceNumber(id);
    var a, b, c := Pad3(g.0), Pad3(g.1), Pad3(g.2);
    assert url == MinuteURL + a + "/" + b + "/" + c + DiffSuffix;
    assert |a| >= 3 && |b| == 3 && |c| == 3;
    BuiltURLGroups(MinuteURL, a, b, c, url);
    ParseShapedURL(MinuteURL, url);
    assert DigitsValue(a) == g.0 && DigitsValue(b) == g.1 && DigitsValue(c) == g.2;
  }

  lemma ParseShapedURL(base: string, url: string)
    requires DiffURLShape(base, url)
    requires var g := URLGroups(base, url); AllDigits(g.0) && AllDigits(g.1) && AllDigits(g.2)
    ensures var g := URLGroups(base, url);
      ParseDiffURL(base, url) == Some(DigitsValue(g.0) * 1000000 + DigitsValue(g.1) * 1000 + DigitsValue(g.2))
  {
  }

  /** A URL assembled from a base and three groups has the diff shape, and its groups are those three. */
  lemma BuiltURLGroups(base: string, a: string, b: string, c: string, url: string)
    requires |a| >= 3 && |b| == 3 && |c| == 3
    requires url == base + a + "/" + b + "/" + c + DiffSuffix
    ensures DiffURLShape(base, url)
    ensures URLGroups(base, url) == (a, b, c)
  {
    var n := |url|;
    assert url[..|base|] == base;
    assert url[n - 7..] == DiffSuffix;
    assert url[|base|..n - 15] == a;
    assert url[n - 14..n - 11] == b;
    assert url[n - 10..n - 7] == c;
  }

  lemma URLInjective(a: nat, b: nat)
    requires URLForSequenceNumber(a) == URLForSequenceNumber(b)
    ensures a == b
  {
    URLRoundTrip(a);
    URLRoundTrip(b);
  }

  // ---- state.txt: /sequenceNumber=(\d+)/ ----

  const SequenceKey: string := "sequenceNumber="

  /** The regular expression matches at `p`: the key followed by at least one digit. */
  predicate MatchAt(text: string, p: int) {
    0 <= p &&
    p + |SequenceKey| < |text| && text[p..p + |SequenceKey|] == SequenceKey
    && IsDigit(text[p + |SequenceKey|])
  }

  /** The length of the run of digits starting at `from` (the greedy `\d+`). */
  function DigitRun(text: string, from: nat): (k: nat)
    requires from <= |text|
    ensures from + k <= |text| && AllDigits(text[from..from + k])
    ensures from + k == |text| || !IsDigit(text[from + k])
    decreases |text| - from
  {
    if from < |text| && IsDigit(text[from]) then
      var k := 1 + DigitRun(text, from + 1);
      assert text[from..from + k] == [text[from]] + text[from + 1..from + k];
      k
    else 0
  }

  /** The leftmost match at or after `from`. */
  function FindMatch(text: string, from: nat): (r: Option<nat>)
    ensures r.Some? ==> from <= r.value && MatchAt(text, r.value)
    ensures r.Some? ==> forall q :: from <= q < r.value ==> !MatchAt(text, q)
    ensures r.None? ==> forall q :: from <= q ==> !MatchAt(text, q)
    decreases |text| - from
  {
    if |text| <= from then None
    else if MatchAt(text, from) then Some(from)
    else FindMatch(text, from + 1)
  }

  /** The regular expression matches at `p` and nowhere to its left. */
  predicate LeftmostMatch(text: string, p: nat) {
    MatchAt(text, p) && forall q :: 0 <= q < p ==> !MatchAt(text, q)
  }

  /** The captured group of a match at `p`, read as a number. */
  function CapturedValue(text: string, p: nat): nat
    requires MatchAt(text, p)
  {
    var start := p + |SequenceKey|;
    var k := DigitRun(text, start);
    DigitsValue(text[start..start + k])
  }

  /**
   * The parse inside `getLatestSequenceNumber`: the value of the whole digit
   * run after the leftmost `sequenceNumber=` that is followed by a digit, or
   * an error when there is no such match.
   */
  function ParseState(text: string): Result<nat, string> {
    match FindMatch(text, 0)
    case None => Failure("Could not get latest sequence number.")
    case Some(p) => Success(CapturedValue(text, p))
  }

  /**
   * The parse fails exactly when the expression matches nowhere; otherwise
   * its value is the number captured at the leftmost match.
   */
  lemma ParseStateMatches(text: string)
    ensures ParseState(text).Failure? <==> forall q :: !MatchAt(text, q)
    ensures ParseState(text).Success? ==>
      exists p :: LeftmostMatch(text, p) && ParseState(text).value == CapturedValue(text, p)
  {
    match FindMatch(text, 0)
    case None =>
    case Some(p) =>
      assert LeftmostMatch(text, p);
  }

  /**
   * A state text whose header has no `=` before the `sequenceNumber=` line,
   * and whose number is not followed by another digit, parses to that number.
   */
  lemma StateRoundTrip(header: string, n: nat, rest: string)
    requires '=' !in header
    requires rest == [] || !IsDigit(rest[0])
    ensures ParseState(header + SequenceKey + NatToString(n) + rest) == Success(n)
  {
    var d := NatToString(n);
    var text := header + SequenceKey + d + rest;
    var p := |header|;
    var start := p + |SequenceKey|;
    assert text[p..start] == SequenceKey;
    assert text[start] == d[0];
    assert MatchAt(text, p);
    assert text[..start] == header + SequenceKey;
    NoMatchInHeader(header, text);
    NoMatchBefore(text, p);
    assert text[start..start + |d|] == d;
    assert text[start + |d|..] == rest;
    DigitRunOfNumber(text, start, d, rest);
    NatToStringValue(n);
  }

  /** With no `=` in the header, no match of the key can start inside it. */
  lemma NoMatchInHeader(header: string, text: string)
    requires '=' !in header
    requires |header| + |SequenceKey| <= |text| && text[..|header| + |SequenceKey|] == header + SequenceKey
    ensures forall q :: 0 <= q < |header| ==> !MatchAt(text, q)
  {
    var p := |header|;
    forall q | 0 <= q < p
      ensures !MatchAt(text, q)
    {
      var e := q + |SequenceKey| - 1;
      assert text[e] == (header + SequenceKey)[e];
      if e < p {
        assert text[e] == header[e];
      } else {
        assert text[e] == SequenceKey[e - p];
      }
      assert text[e] != '=';
    }
  }

  lemma NoMatchBefore(text: string, p: nat)
    requires LeftmostMatch(text, p)
    ensures FindMatch(text, 0) == Some(p)
  {
  }

  lemma DigitRunOfNumber(text: string, start: nat, d: string, rest: string)
    requires start + |d| + |rest| == |text|
    requires text[start..start + |d|] == d && text[start + |d|..] == rest
    requires AllDigits(d)
    requires rest == [] || !IsDigit(rest[0])
    ensures DigitRun(text, start) == |d|
    decreases |d|
  {
    if |d| == 0 {
      assert rest == [] || text[start] == rest[0];
    } else {
      assert text[start] == d[0];
      assert text[start + 1..start + 1 + |d[1..]|] == d[1..];
      DigitRunOfNumber(text, start + 1, d[1..], rest);
    }
  }

  // ---- changeset details ----

  const NoComment: string := "(no comment)"

  /** The `comment` tag when present and non-empty (`tags?.comment || '(no comment)'`). */
  function CommentOf(tags: Option<map<string, string>>): (c: string)
    ensures c != ""
    ensures tags.Some? && "comment" in tags.value && tags.value["comment"] != "" ==> c == tags.value["comment"]
    ensures tags.None? || "comment" !in tags.value || tags.value["comment"] == "" ==> c == NoComment
  {
    if tags.Some? && "comment" in tags.value && tags.value["comment"] != "" then tags.value["comment"]
    else NoComment
  }

  /**
   * `getChangesetDetails`: the id and time come from the filtered node, the
   * author, count and comment from the changeset element.
   */
  function GetChangesetDetails(info: FilteredNode, element: ChangesetElement): (d: ChangesetDetails)
    ensures d.id == info.changeset && d.time == info.timestamp
    ensures d.uid == element.uid && d.username == element.user && d.count == element.changesCount
    ensures d.comment == CommentOf(element.tags) && d.comment != ""
  {
    ChangesetDetails(info.changeset, element.uid, element.user, element.changesCount,
                     CommentOf(element.tags), info.timestamp)
  }
}
