/** The JSON-candidate extraction of `interpretDream` (frontend/src/ollama.ts): from the
    raw model text, pick the string handed to `JSON.parse`, then parse it or fail.

    The fence search is the regular expression `/```json\s*([\s\S]*?)\s*```/i`. It is
    specified here by what a backtracking matcher returns: among all the ways the pattern
    can match, the one tried first (`IsFenceMatch`, `TriedNoLaterThan`); `FenceMatchOf`
    computes it. */
module Extraction {
  import opened Wrappers
  import opened Text

  /** The opening fence: three backticks and `json` in any letter case. */
  predicate JsonTagAt(s: string, i: nat) {
    i + 7 <= |s| && s[i..i + 3] == "```" && Lower(s[i + 3..i + 7]) == "json"
  }

  /** A closing fence: three backticks. */
  predicate FenceAt(s: string, i: nat) {
    i + 3 <= |s| && s[i..i + 3] == "```"
  }

  /** One way the pattern can match: the tag at `start`, the leading `\s*` up to `lead`,
      the captured group `s[lead..capEnd]`, the trailing `\s*` up to `close`, and the
      closing fence at `close`. */
  datatype FenceMatch = FenceMatch(start: nat, lead: nat, capEnd: nat, close: nat)

  predicate IsFenceMatch(s: string, m: FenceMatch) {
    && JsonTagAt(s, m.start)
    && m.start + 7 <= m.lead <= m.capEnd <= m.close
    && FenceAt(s, m.close)
    && AllSpace(s[m.start + 7..m.lead])
    && AllSpace(s[m.capEnd..m.close])
  }

  /** The order in which a backtracking matcher tries matches: leftmost start first, then
      the longest leading `\s*` (greedy), then the shortest group (lazy `*?`), then the
      longest trailing `\s*` (greedy). */
  predicate TriedNoLaterThan(m: FenceMatch, n: FenceMatch) {
    || m.start < n.start
    || (m.start == n.start && m.lead > n.lead)
    || (m.start == n.start && m.lead == n.lead && m.capEnd < n.capEnd)
    || (m.start == n.start && m.lead == n.lead && m.capEnd == n.capEnd && m.close >= n.close)
  }

  /** The first opening fence at or after `from`. */
  function FirstJsonTag(s: string, from: nat): (r: Option<nat>)
    requires from <= |s|
    ensures r.Some? ==> from <= r.value && JsonTagAt(s, r.value)
    ensures forall i: nat :: from <= i && (r.None? || i < r.value) ==> !JsonTagAt(s, i)
    decreases |s| - from
  {
    if from + 7 > |s| then None
    else if JsonTagAt(s, from) then Some(from)
    else FirstJsonTag(s, from + 1)
  }

  /** The first closing fence at or after `from`. */
  function FirstFence(s: string, from: nat): (r: Option<nat>)
    requires from <= |s|
    ensures r.Some? ==> from <= r.value && FenceAt(s, r.value)
    ensures forall i: nat :: from <= i && (r.None? || i < r.value) ==> !FenceAt(s, i)
    decreases |s| - from
  {
    if from + 3 > |s| then None
    else if FenceAt(s, from) then Some(from)
    else FirstFence(s, from + 1)
  }

  /** `i` is the first opening fence of `s` and `t` the first closing fence after it. */
  predicate FirstFencePair(s: string, i: nat, t: nat) {
    && JsonTagAt(s, i) && i + 7 <= t && FenceAt(s, t)
    && (forall k: nat :: k < i ==> !JsonTagAt(s, k))
    && (forall k: nat :: i + 7 <= k < t ==> !FenceAt(s, k))
  }

  /** No match starts before the first opening fence, and none exists if no closing fence
      follows it. */
  lemma MatchNeedsFirstTag(s: string, n: FenceMatch)
    requires IsFenceMatch(s, n)
    ensures FirstJsonTag(s, 0).Some? && FirstJsonTag(s, 0).value <= n.start
    ensures FirstFence(s, FirstJsonTag(s, 0).value + 7).Some?
    ensures FirstFence(s, FirstJsonTag(s, 0).value + 7).value <= n.close
  {
  }

  /** The match the matcher returns when it starts at the first opening fence `i` and the
      first closing fence after it is at `t`. */
  function PreferredMatch(s: string, i: nat, t: nat): (m: FenceMatch)
    requires JsonTagAt(s, i) && i + 7 <= t && FenceAt(s, t)
    requires forall k: nat :: i + 7 <= k < t ==> !FenceAt(s, k)
    ensures IsFenceMatch(s, m) && m.start == i && m.close == t
  {
    var lead := SkipSpace(s, i + 7);
    AllSpaceSlice(s, i + 7, lead);
    assert s[t] == s[t..t + 3][0];
    assert lead <= t;
    FenceMatch(i, lead, BackSpace(s, lead, t), t)
  }

  /** The match at the first opening fence beats every other match in trial order. */
  lemma PreferredMatchFirst(s: string, i: nat, t: nat, n: FenceMatch)
    requires FirstFencePair(s, i, t)
    requires IsFenceMatch(s, n)
    ensures TriedNoLaterThan(PreferredMatch(s, i, t), n)
  {
    var m := PreferredMatch(s, i, t);
    // Leading white space ends at the first other character; a closing fence is not
    // white space, so trailing white space cannot run past one.
    AllSpaceSlice(s, n.start + 7, n.lead);
    AllSpaceSlice(s, n.capEnd, n.close);
    assert s[t] == s[t..t + 3][0];
  }

  /** The match `String.prototype.match` returns for the fence pattern, if any. */
  function FenceMatchOf(s: string): (r: Option<FenceMatch>)
    ensures r.Some? ==> IsFenceMatch(s, r.value)
    ensures r.Some? ==> forall n :: IsFenceMatch(s, n) ==> TriedNoLaterThan(r.value, n)
    ensures r.None? <==> forall n :: !IsFenceMatch(s, n)
  {
    match FirstJsonTag(s, 0)
    case None =>
      assert forall n :: !IsFenceMatch(s, n) by {
        forall n | IsFenceMatch(s, n) ensures false {
          MatchNeedsFirstTag(s, n);
        }
      }
      None
    case Some(i) =>
      match FirstFence(s, i + 7)
      case None =>
        assert forall n :: !IsFenceMatch(s, n) by {
          forall n | IsFenceMatch(s, n) ensures false {
            MatchNeedsFirstTag(s, n);
          }
        }
        None
      case Some(t) =>
        var m := PreferredMatch(s, i, t);
        assert forall n :: IsFenceMatch(s, n) ==> TriedNoLaterThan(m, n) by {
          forall n | IsFenceMatch(s, n) ensures TriedNoLaterThan(m, n) {
            PreferredMatchFirst(s, i, t, n);
          }
        }
        Some(m)
  }

  /** `match[1]`: the captured group, when the pattern matches. */
  function FenceCapture(s: string): (r: Option<string>)
  {
    match FenceMatchOf(s)
    case None => None
    case Some(m) => Some(s[m.lead..m.capEnd])
  }

  /** Fallback 2: from the first `{` to the last `}` inclusive, trimmed, when the last `}`
      comes after the first `{`; otherwise the string unchanged. */
  function BraceSpan(s: string): (r: string)
    ensures Contains(s, r)
  {
    BraceSpanOf(s, IndexOf(s, '{'), LastIndexOf(s, '}'))
  }

  /** The brace search once `indexOf('{')` and `lastIndexOf('}')` are known. */
  function BraceSpanOf(s: string, first: int, last: int): (r: string)
    requires -1 <= first < |s| && -1 <= last < |s|
    ensures Contains(s, r)
  {
    if first != -1 && last != -1 && last > first then
      var span := s[first..last + 1];
      assert OccursAt(s, span, first);
      ContainsTransitive(s, span, Trim(span));
      Trim(span)
    else
      assert OccursAt(s, s, 0);
      s
  }

  /** The string `interpretDream` hands to `JSON.parse` (frontend/src/ollama.ts:53-67).
      A captured group that is empty is falsy in JavaScript and falls through to the
      brace search. It is always a substring of the trimmed raw text. */
  function Candidate(raw: string): (r: string)
    ensures Contains(Trim(raw), r)
  {
    var cleaned := Trim(raw);
    var capture := FenceCapture(cleaned);
    if capture.Some? && capture.value != "" then
      var m := FenceMatchOf(cleaned).value;
      assert OccursAt(cleaned, capture.value, m.lead);
      ContainsTransitive(cleaned, capture.value, Trim(capture.value));
      Trim(capture.value)
    else
      BraceSpan(cleaned)
  }

  /** The error `interpretDream` throws when the candidate does not parse. */
  const FormatError := "Error: LLM output format error. Could not parse JSON. Check LLM prompt instructions."

  /** `interpretDream` after the model call: `parse` stands for `JSON.parse`, partial, and
      its result is returned with no check of its fields. */
  function InterpretDream<J>(raw: string, parse: string -> Option<J>): (r: Result<J, string>)
    ensures r.Success? <==> parse(Candidate(raw)).Some?
    ensures r.Success? ==> parse(Candidate(raw)) == Some(r.value)
    ensures r.Failure? ==> r.error == FormatError
  {
    match parse(Candidate(raw))
    case Some(v) => Success(v)
    case None => Failure(FormatError)
  }

  /** The pattern matches at the first opening fence, up to the first closing fence. */
  lemma MatchAtFirstFences(s: string, i: nat, t: nat)
    requires FirstFencePair(s, i, t)
    ensures FenceMatchOf(s) == Some(PreferredMatch(s, i, t))
  {
    assert FirstJsonTag(s, 0) == Some(i);
    assert FirstFence(s, i + 7) == Some(t);
  }

  /** With the first opening fence at `i` and the first closing fence after it at `t`,
      `match[1]` is the text between them with its white space trimmed, and it holds no
      closing fence: the lazy group stops at the first one. */
  lemma CaptureBetweenFirstFences(s: string, i: nat, t: nat)
    requires FirstFencePair(s, i, t)
    ensures FenceCapture(s) == Some(Trim(s[i + 7..t]))
    ensures forall k: nat :: !FenceAt(FenceCapture(s).value, k)
  {
    var m := PreferredMatch(s, i, t);
    MatchAtFirstFences(s, i, t);
    InteriorTrimmed(s, m);
    GroupHasNoFence(s, m);
  }

  /** The group of the preferred match ends before the first closing fence, so it holds
      none. */
  lemma GroupHasNoFence(s: string, m: FenceMatch)
    requires FirstFencePair(s, m.start, m.close) && m == PreferredMatch(s, m.start, m.close)
    ensures forall k: nat :: !FenceAt(s[m.lead..m.capEnd], k)
  {
    var c := s[m.lead..m.capEnd];
    forall k: nat ensures !FenceAt(c, k) {
      if k + 3 <= |c| {
        SliceOfSlice(s, m.lead, m.capEnd, k, k + 3);
        assert !FenceAt(s, m.lead + k);
      }
    }
  }

  /** The group of the preferred match is the trimmed text between the fences. */
  lemma InteriorTrimmed(s: string, m: FenceMatch)
    requires FirstFencePair(s, m.start, m.close) && m == PreferredMatch(s, m.start, m.close)
    ensures Trim(s[m.start + 7..m.close]) == s[m.lead..m.capEnd]
  {
    TrimSlice(s, m.start + 7, m.lead, m.capEnd, m.close);
  }

  /** The fence branch (frontend/src/ollama.ts:56-59): with the first opening fence at `i`
      and the first closing fence after it at `t`, the candidate is the text between them,
      trimmed; when that text is blank the capture is empty, which is falsy, and the brace
      search runs instead. */
  lemma FenceBranch(raw: string, i: nat, t: nat)
    requires FirstFencePair(Trim(raw), i, t)
    ensures Candidate(raw) == if AllSpace(Trim(raw)[i + 7..t]) then BraceSpan(Trim(raw))
                              else Trim(Trim(raw)[i + 7..t])
    ensures !AllSpace(Trim(raw)[i + 7..t]) ==> forall k: nat :: !FenceAt(Candidate(raw), k)
  {
    var s := Trim(raw);
    CaptureBetweenFirstFences(s, i, t);
    TrimUnpadded(Trim(s[i + 7..t]));
  }

  /** Without an opening fence tagged `json` (in any case), a bare triple-backtick fence
      is ignored and the brace search decides (frontend/src/ollama.ts:56). */
  lemma UntaggedFallsBack(raw: string)
    requires forall k: nat :: !JsonTagAt(Trim(raw), k)
    ensures Candidate(raw) == BraceSpan(Trim(raw))
  {
  }

  /** When the first `{` comes before the last `}`, the brace search keeps exactly the
      inclusive span between them (frontend/src/ollama.ts:61-66). */
  lemma BraceSpanOrdered(s: string, f: nat, l: nat)
    requires f < l < |s| && s[f] == '{' && s[l] == '}'
    requires '{' !in s[..f] && '}' !in s[l + 1..]
    ensures BraceSpan(s) == s[f..l + 1]
  {
    IndexOfIs(s, '{', f);
    LastIndexOfIs(s, '}', l);
    assert BraceSpan(s) == BraceSpanOf(s, f, l);
    TrimUnpadded(s[f..l + 1]);
  }

  /** When no `{` precedes a `}` (either is missing, or the last `}` comes before the first
      `{`), the brace search returns its input unchanged (frontend/src/ollama.ts:53,64). */
  lemma BraceSpanUnordered(s: string)
    requires forall f, l | 0 <= f < l < |s| :: !(s[f] == '{' && s[l] == '}')
    ensures BraceSpan(s) == s
  {
    var first, last := IndexOf(s, '{'), LastIndexOf(s, '}');
    IndexOfSpec(s, '{');
    LastIndexOfSpec(s, '}');
    assert BraceSpan(s) == BraceSpanOf(s, first, last);
    if first != -1 && last != -1 && last > first {
      assert false;
    }
  }

  /** The opening and closing fences the prompt asks the model to wrap its JSON in. */
  function Fenced(json: string): string {
    "```json\n" + json + "\n```"
  }

  /** In a fenced JSON text the opening fence is at 0 and the first closing fence after
      it is the one appended. */
  lemma FencedFences(json: string)
    requires json != [] && !IsSpace(json[|json| - 1])
    requires forall k: nat :: !FenceAt(json, k)
    ensures FirstFencePair(Fenced(json), 0, 9 + |json|)
  {
    var s := Fenced(json);
    var t := 9 + |json|;
    assert s[3..7] == "json";
    assert Lower("json") == "json";
    assert s[t..t + 3] == "```";
    forall k: nat | 7 <= k < t ensures !FenceAt(s, k) {
      if k == 7 {
        assert s[k..k + 3][0] == '\n';
      } else if k + 3 <= t - 1 {
        assert s[k..k + 3] == json[k - 8..k - 5];
        assert !FenceAt(json, k - 8);
      } else {
        assert s[k..k + 3][t - 1 - k] == '\n';
      }
    }
  }

  /** Round trip: a JSON text without white space at its ends and without a triple
      backtick, wrapped in a `json` fence, comes back unchanged as the candidate. */
  lemma FencedRoundTrip(json: string)
    requires json != [] && !IsSpace(json[0]) && !IsSpace(json[|json| - 1])
    requires forall k: nat :: !FenceAt(json, k)
    ensures Candidate(Fenced(json)) == json
  {
    var s := Fenced(json);
    var u := "\n" + json + "\n";
    FencedTrimmed(json);
    FencedFences(json);
    FencedInterior(json);
    TrimNewlines(json);
    FencedCandidate(s, 9 + |json|, u, json);
  }

  /** The fence branch applied to a text whose first fences enclose `u`. A proof step of
      `FencedRoundTrip`, kept apart so that the solver sees `Candidate` in a small
      context. */
  lemma FencedCandidate(raw: string, t: nat, u: string, json: string)
    requires 7 <= t <= |Trim(raw)| && FirstFencePair(Trim(raw), 0, t)
    requires Trim(raw)[7..t] == u && !AllSpace(u) && Trim(u) == json
    ensures Candidate(raw) == json
  {
    FenceBranchTaken(raw, 0, t);
  }

  /** `FenceBranch` when the text between the fences is not blank: the same fact without
      the `if`, which keeps the proofs that use it cheap for the solver. */
  lemma FenceBranchTaken(raw: string, i: nat, t: nat)
    requires FirstFencePair(Trim(raw), i, t) && !AllSpace(Trim(raw)[i + 7..t])
    ensures Candidate(raw) == Trim(Trim(raw)[i + 7..t])
  {
    FenceBranch(raw, i, t);
  }

  /** A fenced text begins and ends with a backtick, so trimming leaves it as it is. */
  lemma FencedTrimmed(json: string)
    ensures Trim(Fenced(json)) == Fenced(json)
  {
    var s := Fenced(json);
    assert s[0] == '`' && s[|s| - 1] == '`';
    TrimUnpadded(s);
  }

  /** Between the fences: the JSON text on a line of its own. */
  lemma FencedInterior(json: string)
    ensures Fenced(json)[7..9 + |json|] == "\n" + json + "\n"
  {
    var s := Fenced(json);
    assert s == "```json" + ("\n" + json + "\n") + "```";
  }

  /** A line break on either side is trimmed away. */
  lemma TrimNewlines(json: string)
    requires json != [] && !IsSpace(json[0]) && !IsSpace(json[|json| - 1])
    ensures Trim("\n" + json + "\n") == json && !AllSpace("\n" + json + "\n")
  {
    var u := "\n" + json + "\n";
    assert u[1..|u| - 1] == json && u[..1] == "\n" && u[|u| - 1..] == "\n";
    TrimIs(u, 1, |u| - 1);
  }

  /** A fenced JSON text that parses is returned as parsed. */
  lemma InterpretFenced<J>(json: string, parse: string -> Option<J>)
    requires json != [] && !IsSpace(json[0]) && !IsSpace(json[|json| - 1])
    requires forall k: nat :: !FenceAt(json, k)
    ensures InterpretDream(Fenced(json), parse) ==
            if parse(json).Some? then Success(parse(json).value) else Failure(FormatError)
  {
    FencedRoundTrip(json);
  }
}
