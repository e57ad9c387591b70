/**
 Keyword alerts over chunked log content.

 Between chunks only the last 256 characters of the stream are kept.  For every keyword a rule may
 have (1 to 200 characters) this is proved to be as good as keeping the whole stream.
 */
module KeywordScan {
  import opened Text
  import opened LogStream

  const SCAN_TAIL := 256
  const MAX_KEYWORD := 200
  const EXCERPT_MARGIN := 180

  datatype Rule = Rule(id: nat, server: string, keyword: string, caseSensitive: bool)

  datatype Match = Match(ruleId: nat, keyword: string, excerpt: string)

  predicate OccursAt(hay: string, needle: string, i: int) {
    0 <= i <= |hay| - |needle| && hay[i..i + |needle|] == needle
  }

  /** The last occurrence that starts at or before position from, or -1. */
  function LastIndexOf(hay: string, needle: string, from: int): (r: int)
    requires from <= |hay| - |needle|
    ensures -1 <= r <= from || (from < -1 && r == -1)
    ensures r >= 0 ==> OccursAt(hay, needle, r)
    ensures forall i :: r < i <= from ==> !OccursAt(hay, needle, i)
    decreases from + 1
  {
    if from < 0 then -1
    else if hay[from..from + |needle|] == needle then from
    else LastIndexOf(hay, needle, from - 1)
  }

  function Folded(s: string, caseSensitive: bool): (t: string)
    ensures |t| == |s|
  {
    if caseSensitive then s else Lower(s)
  }

  /** Where the rule's keyword occurs last in what is searchable. */
  function LastMatch(searchable: string, rule: Rule): int {
    LastIndexOf(Folded(searchable, rule.caseSensitive), Folded(rule.keyword, rule.caseSensitive),
        |searchable| - |rule.keyword|)
  }

  predicate Raises(prior: string, content: string, rule: Rule) {
    var index := LastMatch(prior + content, rule);
    rule.keyword != "" && index >= 0 && index + |rule.keyword| > |prior|
  }

  function ExcerptStart(index: nat): nat {
    if index >= EXCERPT_MARGIN then index - EXCERPT_MARGIN else 0
  }

  /** The occurrence with up to 180 characters on either side. */
  function Excerpt(searchable: string, index: nat, length: nat): string
    requires index + length <= |searchable|
  {
    var end := if index + length + EXCERPT_MARGIN <= |searchable| then index + length + EXCERPT_MARGIN
        else |searchable|;
    searchable[ExcerptStart(index)..end]
  }

  /** The alert of one rule, if it raises one. */
  function MatchOf(prior: string, content: string, server: string, rule: Rule): seq<Match> {
    if rule.server == server && Raises(prior, content, rule) then
      [Match(rule.id, rule.keyword, Excerpt(prior + content, LastMatch(prior + content, rule), |rule.keyword|))]
    else []
  }

  /** The alerts of one chunk, in rule order. */
  function Matches(prior: string, content: string, server: string, rules: seq<Rule>): seq<Match> {
    if rules == [] then []
    else Matches(prior, content, server, rules[..|rules| - 1]) + MatchOf(prior, content, server, rules[|rules| - 1])
  }

  // ---------- Exactness ----------

  predicate OccursIn(whole: string, rule: Rule, at: int) {
    OccursAt(Folded(whole, rule.caseSensitive), Folded(rule.keyword, rule.caseSensitive), at)
  }

  /** The whole-stream specification: some occurrence ends inside the new chunk. */
  ghost predicate EndsInChunk(stream: string, content: string, rule: Rule) {
    exists i :: OccursIn(stream + content, rule, i) && i + |rule.keyword| > |stream|
  }

  lemma FoldedSlice(s: string, caseSensitive: bool, a: nat, b: nat)
    requires a <= b <= |s|
    ensures Folded(s[a..b], caseSensitive) == Folded(s, caseSensitive)[a..b]
  {
  }

  /** An occurrence is the keyword itself, or for a rule without case the keyword up to letter case. */
  lemma OccursInText(whole: string, rule: Rule, at: nat)
    requires at + |rule.keyword| <= |whole|
    ensures var text := whole[at..at + |rule.keyword|];
            OccursIn(whole, rule, at) <==>
              if rule.caseSensitive then text == rule.keyword else Lower(text) == Lower(rule.keyword)
  {
    FoldedSlice(whole, rule.caseSensitive, at, at + |rule.keyword|);
  }

  /** Occurrences in a slice are the occurrences of the whole that lie inside it. */
  lemma OccursInSlice(hay: string, needle: string, a: nat, b: nat, i: nat)
    requires a <= b <= |hay| && a + i + |needle| <= b
    ensures OccursAt(hay[a..b], needle, i) <==> OccursAt(hay, needle, a + i)
  {
    var n := |needle|;
    var x, y := hay[a..b][i..i + n], hay[a + i..a + i + n];
    forall k | 0 <= k < n ensures x[k] == y[k] {
      assert x[k] == hay[a..b][i + k] == hay[a + i + k];
    }
    assert x == y;
  }

  /** The same under the rule's letter case. */
  lemma RuleOccursInSlice(s: string, rule: Rule, a: nat, b: nat, i: nat)
    requires a <= b <= |s| && a + i + |rule.keyword| <= b
    ensures OccursAt(Folded(s[a..b], rule.caseSensitive), Folded(rule.keyword, rule.caseSensitive), i) <==>
              OccursAt(Folded(s, rule.caseSensitive), Folded(rule.keyword, rule.caseSensitive), a + i)
  {
    FoldedSlice(s, rule.caseSensitive, a, b);
    OccursInSlice(Folded(s, rule.caseSensitive), Folded(rule.keyword, rule.caseSensitive), a, b, i);
  }

  /** What is dropped in front of the tail. */
  function Offset(stream: string): (offset: nat)
    ensures offset <= |stream| && stream[offset..] == Suffix(stream, SCAN_TAIL)
  {
    if |stream| <= SCAN_TAIL then 0 else |stream| - SCAN_TAIL
  }

  /** An occurrence in the tail plus the chunk is the same occurrence in the stream, shifted. */
  lemma OccurrenceShifts(stream: string, content: string, rule: Rule, at: nat)
    requires at >= Offset(stream)
    ensures OccursIn(Suffix(stream, SCAN_TAIL) + content, rule, at - Offset(stream)) <==>
            OccursIn(stream + content, rule, at)
  {
    var prior, whole, offset := Suffix(stream, SCAN_TAIL), stream + content, Offset(stream);
    assert prior + content == whole[offset..|whole|];
    if at + |rule.keyword| <= |whole| {
      RuleOccursInSlice(whole, rule, offset, |whole|, at - offset);
    }
  }

  lemma NoneBehindLast(searchable: string, rule: Rule, i: int)
    requires i > LastMatch(searchable, rule)
    ensures !OccursIn(searchable, rule, i)
  {
  }

  lemma NoneBehindShifted(stream: string, content: string, rule: Rule, at: nat)
    requires at >= Offset(stream)
    requires at - Offset(stream) > LastMatch(Suffix(stream, SCAN_TAIL) + content, rule)
    ensures !OccursIn(stream + content, rule, at)
  {
    NoneBehindLast(Suffix(stream, SCAN_TAIL) + content, rule, at - Offset(stream));
    OccurrenceShifts(stream, content, rule, at);
  }

  lemma FoundIsOccurrence(searchable: string, rule: Rule)
    requires LastMatch(searchable, rule) >= 0
    ensures OccursIn(searchable, rule, LastMatch(searchable, rule))
  {
  }

  lemma FoundShifted(stream: string, content: string, rule: Rule)
    requires LastMatch(Suffix(stream, SCAN_TAIL) + content, rule) >= 0
    ensures OccursIn(stream + content, rule, Offset(stream) + LastMatch(Suffix(stream, SCAN_TAIL) + content, rule))
  {
    var index := LastMatch(Suffix(stream, SCAN_TAIL) + content, rule);
    FoundIsOccurrence(Suffix(stream, SCAN_TAIL) + content, rule);
    OccurrenceShifts(stream, content, rule, Offset(stream) + index);
  }

  /** With the tail of the stream so far as memory, a rule raises on a chunk exactly if an occurrence ends in it. */
  lemma TailIsEnough(stream: string, content: string, rule: Rule)
    requires 0 < |rule.keyword| <= SCAN_TAIL + 1
    ensures Raises(Suffix(stream, SCAN_TAIL), content, rule) <==> EndsInChunk(stream, content, rule)
  {
    var prior := Suffix(stream, SCAN_TAIL);
    var index := LastMatch(prior + content, rule);
    if Raises(prior, content, rule) {
      FoundShifted(stream, content, rule);
    }
    if EndsInChunk(stream, content, rule) {
      var i :| OccursIn(stream + content, rule, i) && i + |rule.keyword| > |stream|;
      OccurrenceFound(stream, content, rule, i);
    }
  }

  lemma OccurrenceFound(stream: string, content: string, rule: Rule, i: int)
    requires 0 < |rule.keyword| <= SCAN_TAIL + 1 && OccursIn(stream + content, rule, i)
    requires i + |rule.keyword| > |stream|
    ensures LastMatch(Suffix(stream, SCAN_TAIL) + content, rule) >= i - Offset(stream) >= 0
  {
    if LastMatch(Suffix(stream, SCAN_TAIL) + content, rule) < i - Offset(stream) {
      NoneBehindShifted(stream, content, rule, i);
    }
  }

  /** The bound is sharp: a longer keyword completed by one more character is missed. */
  lemma LongerKeywordIsMissed(rule: Rule)
    requires |rule.keyword| > SCAN_TAIL + 1
    ensures var cut := |rule.keyword| - 1;
            && EndsInChunk(rule.keyword[..cut], rule.keyword[cut..], rule)
            && !Raises(Suffix(rule.keyword[..cut], SCAN_TAIL), rule.keyword[cut..], rule)
  {
    var cut := |rule.keyword| - 1;
    assert rule.keyword[..cut] + rule.keyword[cut..] == rule.keyword;
    assert OccursIn(rule.keyword, rule, 0);
  }

  function ScanTail(chunks: seq<string>): string {
    if chunks == [] then "" else Suffix(ScanTail(chunks[..|chunks| - 1]) + chunks[|chunks| - 1], SCAN_TAIL)
  }

  lemma {:induction false} ScanTailIsSuffix(chunks: seq<string>)
    ensures ScanTail(chunks) == Suffix(Stream(chunks), SCAN_TAIL)
  {
    if chunks != [] {
      ScanTailIsSuffix(chunks[..|chunks| - 1]);
      SuffixAppend(Stream(chunks[..|chunks| - 1]), chunks[|chunks| - 1], SCAN_TAIL);
    }
  }

  /**
   However the stream was cut before, a rule with an admissible keyword raises exactly if an occurrence ends in the
   chunk.
   */
  lemma ScanIsExact(chunks: seq<string>, content: string, rule: Rule)
    requires 0 < |rule.keyword| <= MAX_KEYWORD
    ensures Raises(ScanTail(chunks), content, rule) <==> EndsInChunk(Stream(chunks), content, rule)
  {
    ScanTailIsSuffix(chunks);
    TailIsEnough(Stream(chunks), content, rule);
  }

  /** The excerpt kept with an alert contains the occurrence. */
  lemma ExcerptShowsMatch(searchable: string, rule: Rule, index: nat)
    requires OccursAt(Folded(searchable, rule.caseSensitive), Folded(rule.keyword, rule.caseSensitive), index)
    ensures OccursAt(Folded(Excerpt(searchable, index, |rule.keyword|), rule.caseSensitive),
                     Folded(rule.keyword, rule.caseSensitive), index - ExcerptStart(index))
  {
    var n := |rule.keyword|;
    var end := if index + n + EXCERPT_MARGIN <= |searchable| then index + n + EXCERPT_MARGIN else |searchable|;
    RuleOccursInSlice(searchable, rule, ExcerptStart(index), end, index - ExcerptStart(index));
  }

  // ---------- The alerts of interleaved streams ----------

  ghost predicate OccursLast(whole: string, rule: Rule, at: nat) {
    OccursIn(whole, rule, at) && forall i :: i > at ==> !OccursIn(whole, rule, i)
  }

  /** From 180 characters before a place, but at most 256 before the chunk, to 180 behind it. */
  function Around(stream: string, whole: string, at: nat, length: nat): string
    requires stream <= whole && |stream| <= at + length <= |whole|
  {
    var from := if |stream| > 256 && at < |stream| - 256 + 180 then |stream| - 256
                else if at < 180 then 0 else at - 180;
    var to := if at + length + 180 > |whole| then |whole| else at + length + 180;
    whole[from..to]
  }

  /** An event for a rule that shows the last occurrence of its keyword, which ends in the chunk. */
  ghost predicate IsAlertOf(m: Match, stream: string, content: string, rule: Rule) {
    && m.ruleId == rule.id && m.keyword == rule.keyword
    && exists at: nat :: OccursLast(stream + content, rule, at) && at + |rule.keyword| > |stream|
                         && m.excerpt == Around(stream, stream + content, at, |rule.keyword|)
  }

  /** The rule is of this server, and some occurrence of its keyword ends in the chunk. */
  ghost predicate Concerns(stream: string, content: string, server: string, rule: Rule) {
    rule.server == server && rule.keyword != "" && EndsInChunk(stream, content, rule)
  }

  /** Event k belongs to rule picks[k]: at most one event per rule, in the order of the rules. */
  ghost predicate AreAlertsOf(picks: seq<nat>, stream: string, content: string, rules: seq<Rule>, matches: seq<Match>) {
    && |picks| == |matches|
    && (forall k :: 0 <= k < |picks| ==> picks[k] < |rules| && IsAlertOf(matches[k], stream, content, rules[picks[k]]))
    && (forall j, k :: 0 <= j < k < |picks| ==> picks[j] < picks[k])
  }

  /** Only rules that are concerned are picked, and of those whose keyword fits the tail all. */
  ghost predicate PicksConcerned(picks: seq<nat>, stream: string, content: string, server: string, rules: seq<Rule>) {
    && (forall r: nat :: r in picks ==> r < |rules| && Concerns(stream, content, server, rules[r]))
    && (forall r: nat :: r < |rules| && |rules[r].keyword| <= SCAN_TAIL + 1 ==>
          Concerns(stream, content, server, rules[r]) ==> r in picks)
  }

  ghost predicate ListsAlerts(picks: seq<nat>, stream: string, content: string, server: string, rules: seq<Rule>,
      matches: seq<Match>) {
    AreAlertsOf(picks, stream, content, rules, matches) && PicksConcerned(picks, stream, content, server, rules)
  }

  ghost predicate AlertsAreExact(stream: string, content: string, server: string, rules: seq<Rule>,
      matches: seq<Match>) {
    exists picks :: ListsAlerts(picks, stream, content, server, rules, matches)
  }

  /** What is found last in the tail and the chunk, at index, is last in the whole stream. */
  lemma LastInTailIsLast(stream: string, content: string, rule: Rule, offset: nat, index: nat)
    requires offset == Offset(stream)
    requires index == LastMatch(Suffix(stream, SCAN_TAIL) + content, rule)
    ensures OccursLast(stream + content, rule, offset + index)
  {
    FoundShifted(stream, content, rule);
    forall i | i > offset + index ensures !OccursIn(stream + content, rule, i) {
      NoneBehindShifted(stream, content, rule, i);
    }
  }

  /** A slice of the end of a text is a slice of the text. */
  lemma SliceOfEnd(whole: string, offset: nat, a: nat, b: nat)
    requires offset <= |whole| && a <= b <= |whole| - offset
    ensures whole[offset..][a..b] == whole[offset + a..offset + b]
  {
  }

  lemma EndWithChunk(stream: string, content: string, offset: nat)
    requires offset <= |stream|
    ensures stream[offset..] + content == (stream + content)[offset..]
  {
  }

  lemma ExcerptOfEnd(whole: string, offset: nat, index: nat, length: nat)
    requires offset + index + length <= |whole|
    ensures var to := offset + index + length + 180;
            Excerpt(whole[offset..], index, length) ==
            whole[offset + (if index < 180 then 0 else index - 180)..if to > |whole| then |whole| else to]
  {
    var end := if index + length + EXCERPT_MARGIN <= |whole| - offset then index + length + EXCERPT_MARGIN
        else |whole| - offset;
    SliceOfEnd(whole, offset, ExcerptStart(index), end);
  }

  lemma ExcerptIsAround(stream: string, content: string, index: nat, length: nat)
    requires |stream| < Offset(stream) + index + length <= |stream + content|
    ensures Excerpt(Suffix(stream, SCAN_TAIL) + content, index, length) ==
            Around(stream, stream + content, Offset(stream) + index, length)
  {
    EndWithChunk(stream, content, Offset(stream));
    ExcerptOfEnd(stream + content, Offset(stream), index, length);
  }

  lemma RaisedIsAlert(stream: string, content: string, rule: Rule, m: Match)
    requires Raises(Suffix(stream, SCAN_TAIL), content, rule)
    requires var prior := Suffix(stream, SCAN_TAIL);
             m == Match(rule.id, rule.keyword,
                        Excerpt(prior + content, LastMatch(prior + content, rule), |rule.keyword|))
    ensures IsAlertOf(m, stream, content, rule) && EndsInChunk(stream, content, rule)
  {
    var prior := Suffix(stream, SCAN_TAIL);
    var offset, index := Offset(stream), LastMatch(prior + content, rule);
    LastInTailIsLast(stream, content, rule, offset, index);
    ExcerptIsAround(stream, content, index, |rule.keyword|);
    AlertAt(stream, content, rule, m, offset + index);
  }

  lemma AlertAt(stream: string, content: string, rule: Rule, m: Match, at: nat)
    requires OccursLast(stream + content, rule, at) && at + |rule.keyword| > |stream|
    requires m == Match(rule.id, rule.keyword, Around(stream, stream + content, at, |rule.keyword|))
    ensures IsAlertOf(m, stream, content, rule) && EndsInChunk(stream, content, rule)
  {
    assert OccursIn(stream + content, rule, at);
  }

  lemma PicksOneMore(picks: seq<nat>, stream: string, content: string, server: string, rules: seq<Rule>, rule: Rule)
    requires PicksConcerned(picks, stream, content, server, rules) && Concerns(stream, content, server, rule)
    ensures PicksConcerned(picks + [|rules|], stream, content, server, rules + [rule])
  {
    var more, all := picks + [|rules|], rules + [rule];
    forall r: nat | r < |all| && |all[r].keyword| <= SCAN_TAIL + 1 && Concerns(stream, content, server, all[r])
      ensures r in more
    {
      if r == |rules| { assert more[|picks|] == r; } else { assert all[r] == rules[r] && r in picks; }
    }
  }

  /** With one more rule the list grows by its event, exactly if the rule is concerned. */
  lemma OneMoreAlert(picks: seq<nat>, stream: string, content: string, server: string, rules: seq<Rule>, rule: Rule,
      matches: seq<Match>, m: Match)
    requires ListsAlerts(picks, stream, content, server, rules, matches)
    requires IsAlertOf(m, stream, content, rule) && Concerns(stream, content, server, rule)
    ensures ListsAlerts(picks + [|rules|], stream, content, server, rules + [rule], matches + [m])
  {
    PicksOneMore(picks, stream, content, server, rules, rule);
    assert forall k :: 0 <= k < |picks| ==> picks[k] in picks;
  }

  lemma NoMoreAlert(picks: seq<nat>, stream: string, content: string, server: string, rules: seq<Rule>, rule: Rule,
      matches: seq<Match>)
    requires ListsAlerts(picks, stream, content, server, rules, matches)
    requires |rule.keyword| <= SCAN_TAIL + 1 ==> !Concerns(stream, content, server, rule)
    ensures ListsAlerts(picks, stream, content, server, rules + [rule], matches)
  {
    var all := rules + [rule];
    forall r: nat | r < |all| && |all[r].keyword| <= SCAN_TAIL + 1 && Concerns(stream, content, server, all[r])
      ensures r in picks
    {
      assert r < |rules| && all[r] == rules[r];
    }
  }

  lemma OneMoreRule(picks: seq<nat>, stream: string, content: string, server: string, rules: seq<Rule>, rule: Rule,
      matches: seq<Match>)
    requires ListsAlerts(picks, stream, content, server, rules, matches)
    ensures AlertsAreExact(stream, content, server, rules + [rule],
                           matches + MatchOf(Suffix(stream, SCAN_TAIL), content, server, rule))
  {
    var prior := Suffix(stream, SCAN_TAIL);
    if rule.server == server && Raises(prior, content, rule) {
      var m := MatchOf(prior, content, server, rule)[0];
      RaisedIsAlert(stream, content, rule, m);
      OneMoreAlert(picks, stream, content, server, rules, rule, matches, m);
    } else {
      if 0 < |rule.keyword| <= SCAN_TAIL + 1 { TailIsEnough(stream, content, rule); }
      NoMoreAlert(picks, stream, content, server, rules, rule, matches);
      assert matches + [] == matches;
    }
  }

  lemma NextRule(stream: string, content: string, server: string, rules: seq<Rule>, rule: Rule, found: seq<Match>)
    requires AlertsAreExact(stream, content, server, rules, found)
    ensures AlertsAreExact(stream, content, server, rules + [rule],
                           found + MatchOf(Suffix(stream, SCAN_TAIL), content, server, rule))
  {
    var picks :| ListsAlerts(picks, stream, content, server, rules, found);
    OneMoreRule(picks, stream, content, server, rules, rule, found);
  }

  lemma MatchesNext(prior: string, content: string, server: string, rules: seq<Rule>, k: nat)
    requires k < |rules|
    ensures Matches(prior, content, server, rules[..k + 1]) ==
            Matches(prior, content, server, rules[..k]) + MatchOf(prior, content, server, rules[k])
  {
    assert rules[..k + 1][..k] == rules[..k];
  }

  lemma NextPrefix<T>(s: seq<T>, k: nat)
    requires k < |s|
    ensures s[..k] + [s[k]] == s[..k + 1]
  {
  }

  /**
   Whatever the server uploaded before, with only the tail of it: the events of a chunk are exactly those of the rules
   of this server whose keyword occurs with an end in the chunk, one for a rule, in the order of the rules.
   */
  lemma MatchesAreExact(stream: string, content: string, server: string, rules: seq<Rule>)
    ensures AlertsAreExact(stream, content, server, rules, Matches(Suffix(stream, SCAN_TAIL), content, server, rules))
  {
    var prior, found := Suffix(stream, SCAN_TAIL), [];
    assert ListsAlerts([], stream, content, server, [], []);
    for k := 0 to |rules|
      invariant found == Matches(prior, content, server, rules[..k])
      invariant AlertsAreExact(stream, content, server, rules[..k], found)
    {
      NextRule(stream, content, server, rules[..k], rules[k], found);
      NextPrefix(rules, k);
      MatchesNext(prior, content, server, rules, k);
      found := found + MatchOf(prior, content, server, rules[k]);
    }
    assert rules[..|rules|] == rules;
  }

  // ---------- The scanner ----------

  function TailIn(tails: map<string, string>, server: string): string {
    if server in tails then tails[server] else ""
  }

  /** Every server's tail is the end of its own stream. */
  ghost predicate TailsFit(tails: map<string, string>, history: seq<Chunk>) {
    forall server :: TailIn(tails, server) == Suffix(StreamOf(history, server), SCAN_TAIL)
  }

  lemma TailsStayFit(tails: map<string, string>, history: seq<Chunk>, chunk: Chunk)
    requires TailsFit(tails, history)
    ensures TailsFit(tails[chunk.server := Suffix(TailIn(tails, chunk.server) + chunk.content, SCAN_TAIL)],
                     history + [chunk])
  {
    SuffixAppend(StreamOf(history, chunk.server), chunk.content, SCAN_TAIL);
    var after := tails[chunk.server := Suffix(TailIn(tails, chunk.server) + chunk.content, SCAN_TAIL)];
    forall server ensures TailIn(after, server) == Suffix(StreamOf(history + [chunk], server), SCAN_TAIL) {
      StreamGrows(history, chunk, server);
      assert TailIn(tails, server) == Suffix(StreamOf(history, server), SCAN_TAIL);
      assert StreamOf(history, server) + "" == StreamOf(history, server);
    }
  }

  class KeywordScanner {
    var scanTails: map<string, string>
    ghost var history: seq<Chunk>

    ghost predicate Valid()
      reads this
    {
      TailsFit(scanTails, history)
    }

    constructor ()
      ensures scanTails == map[] && history == [] && Valid()
    {
      scanTails, history := map[], [];
    }

    function TailOf(server: string): string
      reads this
    {
      TailIn(scanTails, server)
    }

    method MatchKeywordAlerts(server: string, content: string, rules: seq<Rule>) returns (matches: seq<Match>)
      requires Valid()
      modifies this
      ensures Valid() && history == old(history) + [Chunk(server, content)]
      ensures AlertsAreExact(StreamOf(old(history), server), content, server, rules, matches)
      ensures matches == Matches(old(TailOf(server)), content, server, rules)
      ensures scanTails == old(scanTails)[server := Suffix(old(TailOf(server)) + content, SCAN_TAIL)]
    {
      var prior := TailOf(server);
      MatchesAreExact(StreamOf(history, server), content, server, rules);
      TailsStayFit(scanTails, history, Chunk(server, content));
      var searchable := prior + content;
      scanTails := scanTails[server := Suffix(searchable, SCAN_TAIL)];
      matches := [];
      var k := 0;
      while k < |rules|
        invariant 0 <= k <= |rules|
        invariant matches == Matches(prior, content, server, rules[..k])
        invariant scanTails == old(scanTails)[server := Suffix(searchable, SCAN_TAIL)] && history == old(history)
      {
        MatchesNext(prior, content, server, rules, k);
        var found := CheckRule(prior, searchable, content, server, rules[k]);
        matches := matches + found;
        k := k + 1;
      }
      assert rules[..k] == rules;
      history := history + [Chunk(server, content)];
    }

    /** One turn of the loop over the rules. */
    static method CheckRule(prior: string, searchable: string, ghost content: string, server: string, rule: Rule)
      returns (found: seq<Match>)
      requires searchable == prior + content
      ensures found == MatchOf(prior, content, server, rule)
    {
      if rule.server != server || rule.keyword == "" {
        return [];
      }
      var index := LastMatch(searchable, rule);
      if index < 0 || index + |rule.keyword| <= |prior| {
        return [];
      }
      return [Match(rule.id, rule.keyword, Excerpt(searchable, index, |rule.keyword|))];
    }
  }
}
