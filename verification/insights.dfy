/** The `/insights/{node_id}` handler of `main.py`: resolve the node's scope,
    aggregate it, compose a fixed-layout prompt, ask the configured provider,
    and replace a provider exception by a fixed apology. */
module Insights {
  import opened Optional
  import opened Seqs
  import opened Text
  import opened Models
  import opened Scope
  import opened Aggregation
  import opened Provider

  const NodeNotFoundHtml := "<div class='error'>Node not found</div>"
  const Unavailable := "AI insights temporarily unavailable."
  // The two long prompt sentences are written as concatenations of shorter
  // literals, which the verifier reasons about character by character.
  const PromptIntro := "Provide a concise AI insight " + "for the following scope: "
  const PromptClosing := "Summarize the risk and incident " + "landscape and suggest a next step."

  /** How many risks and incidents the fragment lists. */
  const InsightsSampleSize: nat := 3

  /** The optional `Top Risk`, `Recent Incident` and `Sample Action` lines,
      each present only when its list is non-empty and built from the list's
      first element. */
  function SampleLines(risks: seq<Risk>, incidents: seq<Incident>, actions: seq<ActionItem>): (ls: seq<string>)
    ensures |ls| == (if risks != [] then 1 else 0) + (if incidents != [] then 1 else 0) + (if actions != [] then 1 else 0)
    ensures risks != [] ==> ls[0] == "Top Risk: " + risks[0].title + " - " + Show(risks[0].description)
    ensures incidents != [] ==>
      ls[if risks != [] then 1 else 0] == "Recent Incident: " + incidents[0].name + " - " + Show(incidents[0].description)
    ensures actions != [] ==> ls[|ls| - 1] == "Sample Action: " + actions[0].description
  {
    (if risks != [] then ["Top Risk: " + risks[0].title + " - " + Show(risks[0].description)] else [])
    + (if incidents != [] then ["Recent Incident: " + incidents[0].name + " - " + Show(incidents[0].description)] else [])
    + (if actions != [] then ["Sample Action: " + actions[0].description] else [])
  }

  /** The four fixed lines that open the prompt: the scope name and the
      three counts. */
  function HeaderLines(name: string, risks: seq<Risk>, incidents: seq<Incident>, actions: seq<ActionItem>): (ls: seq<string>)
    ensures |ls| == 4
  {
    [PromptIntro + name,
     "Risks: " + NatToString(|risks|),
     "Incidents: " + NatToString(|incidents|),
     "Actions: " + NatToString(|actions|)]
  }

  /** Lines each followed by a newline. */
  function Terminated(ls: seq<string>): string {
    if ls == [] then "" else ls[0] + "\n" + Terminated(ls[1..])
  }

  /** The prompt text: every header and sample line followed by a newline,
      then the closing sentence without one. */
  function Prompt(name: string, risks: seq<Risk>, incidents: seq<Incident>, actions: seq<ActionItem>): (p: string)
    ensures PromptIntro + name + "\n" <= p
    ensures |p| >= |PromptClosing| && p[|p| - |PromptClosing|..] == PromptClosing
  {
    var ls := HeaderLines(name, risks, incidents, actions) + SampleLines(risks, incidents, actions);
    var body := Terminated(ls);
    assert body == (PromptIntro + name + "\n") + Terminated(ls[1..]);
    body + PromptClosing
  }

  /** Every line of the prompt, in order. */
  function PromptLines(name: string, risks: seq<Risk>, incidents: seq<Incident>, actions: seq<ActionItem>): seq<string> {
    HeaderLines(name, risks, incidents, actions) + SampleLines(risks, incidents, actions) + [PromptClosing]
  }

  /** Lines joined by newlines, without a trailing newline. */
  function JoinLines(ls: seq<string>): string
    requires |ls| >= 1
  {
    if |ls| == 1 then ls[0] else ls[0] + "\n" + JoinLines(ls[1..])
  }

  lemma {:induction false} TerminatedThenLast(ls: seq<string>, last: string)
    ensures Terminated(ls) + last == JoinLines(ls + [last])
  {
    if ls == [] {
      assert ls + [last] == [last];
    } else {
      assert (ls + [last])[1..] == ls[1..] + [last];
      TerminatedThenLast(ls[1..], last);
    }
  }

  /** The prompt is its lines joined by newlines: it starts with the scope
      line and ends with the closing sentence, with no trailing newline. */
  lemma PromptIsJoinedLines(name: string, risks: seq<Risk>, incidents: seq<Incident>, actions: seq<ActionItem>)
    ensures Prompt(name, risks, incidents, actions) == JoinLines(PromptLines(name, risks, incidents, actions))
  {
    TerminatedThenLast(HeaderLines(name, risks, incidents, actions) + SampleLines(risks, incidents, actions), PromptClosing);
  }

  /** The first `k` lines of newline-joined lines read back unchanged when
      none of them contains a newline, whatever the later lines hold. */
  lemma {:induction false} SplitJoinPrefix(ls: seq<string>, k: nat)
    requires k < |ls|
    requires forall i :: 0 <= i < k ==> '\n' !in ls[i]
    ensures |SplitLines(JoinLines(ls))| > k
    ensures forall i :: 0 <= i < k ==> SplitLines(JoinLines(ls))[i] == ls[i]
  {
    if k > 0 {
      SplitJoinPrefix(ls[1..], k - 1);
      SplitFirstLine(ls[0], JoinLines(ls[1..]));
    }
  }

  /** Splitting newline-joined lines that contain no newline gives the lines
      back. */
  lemma {:induction false} SplitJoinLines(ls: seq<string>)
    requires |ls| >= 1
    requires forall i :: 0 <= i < |ls| ==> '\n' !in ls[i]
    ensures SplitLines(JoinLines(ls)) == ls
  {
    if |ls| == 1 {
      SplitSingleLine(ls[0]);
    } else {
      SplitJoinLines(ls[1..]);
      SplitFirstLine(ls[0], JoinLines(ls[1..]));
      assert [ls[0]] + ls[1..] == ls;
    }
  }

  lemma NoNewlineInNumeral(n: nat)
    ensures '\n' !in NatToString(n)
  {
    var s := NatToString(n);
    forall k | 0 <= k < |s| ensures s[k] != '\n' {
      assert IsDigit(s[k]);
    }
  }

  lemma NoNewlineInJoin(a: string, b: string)
    requires '\n' !in a && '\n' !in b
    ensures '\n' !in a + b
  {
  }

  /** A fixed key followed by a numeral is a single line. */
  lemma NoNewlineInCountLine(key: string, n: nat)
    requires '\n' !in key
    ensures '\n' !in key + NatToString(n)
  {
    NoNewlineInNumeral(n);
  }

  /** The header lines hold a newline only if the scope name does. */
  lemma NoNewlineInHeader(name: string, risks: seq<Risk>, incidents: seq<Incident>, actions: seq<ActionItem>)
    requires '\n' !in name
    ensures forall i :: 0 <= i < 4 ==> '\n' !in HeaderLines(name, risks, incidents, actions)[i]
  {
    var hs := HeaderLines(name, risks, incidents, actions);
    assert '\n' !in PromptIntro by {
      NoNewlineInJoin("Provide a concise AI insight ", "for the following scope: ");
    }
    NoNewlineInJoin(PromptIntro, name);
    NoNewlineInCountLine("Risks: ", |risks|);
    NoNewlineInCountLine("Incidents: ", |incidents|);
    NoNewlineInCountLine("Actions: ", |actions|);
  }

  /** No record text handed to the prompt spans several lines. */
  predicate SingleLineFields(name: string, risks: seq<Risk>, incidents: seq<Incident>, actions: seq<ActionItem>) {
    && '\n' !in name
    && (risks != [] ==> '\n' !in risks[0].title && '\n' !in Show(risks[0].description))
    && (incidents != [] ==> '\n' !in incidents[0].name && '\n' !in Show(incidents[0].description))
    && (actions != [] ==> '\n' !in actions[0].description)
  }

  lemma NoNewlineInSampleLines(risks: seq<Risk>, incidents: seq<Incident>, actions: seq<ActionItem>)
    requires risks != [] ==> '\n' !in risks[0].title && '\n' !in Show(risks[0].description)
    requires incidents != [] ==> '\n' !in incidents[0].name && '\n' !in Show(incidents[0].description)
    requires actions != [] ==> '\n' !in actions[0].description
    ensures forall j :: 0 <= j < |SampleLines(risks, incidents, actions)| ==> '\n' !in SampleLines(risks, incidents, actions)[j]
  {
  }

  /** A line that differs from `key` at position `k` does not start with
      `key`. */
  lemma DiffersAt(line: string, key: string, k: nat)
    requires k < |line| && k < |key| && line[k] != key[k]
    ensures !(key <= line)
  {
  }

  /** When the fields are single-line, the prompt reads back line by line:
      four fixed lines, then one sample line per non-empty list in the order
      risks, incidents, actions, then the closing sentence. Each sample line
      appears exactly when its list is non-empty. */
  lemma PromptLineLayout(name: string, risks: seq<Risk>, incidents: seq<Incident>, actions: seq<ActionItem>)
    requires SingleLineFields(name, risks, incidents, actions)
    ensures var ls := SplitLines(Prompt(name, risks, incidents, actions));
      && ls == PromptLines(name, risks, incidents, actions)
      && |ls| == 5 + (if risks != [] then 1 else 0) + (if incidents != [] then 1 else 0) + (if actions != [] then 1 else 0)
      && ls[0] == PromptIntro + name
      && ls[|ls| - 1] == PromptClosing
      && (risks != [] <==> HasLineStarting(ls, "Top Risk: "))
      && (incidents != [] <==> HasLineStarting(ls, "Recent Incident: "))
      && (actions != [] <==> HasLineStarting(ls, "Sample Action: "))
  {
    var ls := PromptLines(name, risks, incidents, actions);
    PromptIsJoinedLines(name, risks, incidents, actions);
    NoNewlineInPromptLines(name, risks, incidents, actions);
    SplitJoinLines(ls);
    SampleLinesPresence(name, risks, incidents, actions);
  }

  /** With single-line fields no line of the prompt holds a newline. */
  lemma NoNewlineInPromptLines(name: string, risks: seq<Risk>, incidents: seq<Incident>, actions: seq<ActionItem>)
    requires SingleLineFields(name, risks, incidents, actions)
    ensures var ls := PromptLines(name, risks, incidents, actions);
      forall i :: 0 <= i < |ls| ==> '\n' !in ls[i]
  {
    var hs := HeaderLines(name, risks, incidents, actions);
    var ss := SampleLines(risks, incidents, actions);
    var ls := PromptLines(name, risks, incidents, actions);
    NoNewlineInHeader(name, risks, incidents, actions);
    NoNewlineInSampleLines(risks, incidents, actions);
    NoNewlineInJoin("Summarize the risk and incident ", "landscape and suggest a next step.");
    forall i | 0 <= i < |ls| ensures '\n' !in ls[i] {
      if i < 4 {
        assert ls[i] == hs[i];
      } else if i < 4 + |ss| {
        assert ls[i] == ss[i - 4];
      } else {
        assert ls[i] == PromptClosing;
      }
    }
  }

  /** Some line starts with `key`. */
  predicate HasLineStarting(ls: seq<string>, key: string) {
    exists i :: 0 <= i < |ls| && key <= ls[i]
  }

  /** None of the four fixed lines starts with a sample key. */
  lemma HeaderLinesUnkeyed(name: string, risks: seq<Risk>, incidents: seq<Incident>, actions: seq<ActionItem>, i: int)
    requires 0 <= i < 4
    ensures var line := HeaderLines(name, risks, incidents, actions)[i];
      && !("Top Risk: " <= line) && !("Recent Incident: " <= line) && !("Sample Action: " <= line)
  {
    var line := HeaderLines(name, risks, incidents, actions)[i];
    if i == 0 {
      assert line == PromptIntro + name && line[0] == 'P';
    } else if i == 1 {
      assert line[0] == 'R' && line[1] == 'i';
      DiffersAt(line, "Recent Incident: ", 1);
    } else if i == 2 {
      assert line[0] == 'I';
    } else {
      assert line[0] == 'A';
    }
    DiffersAt(line, "Top Risk: ", 0);
    DiffersAt(line, "Sample Action: ", 0);
    if i != 1 {
      DiffersAt(line, "Recent Incident: ", 0);
    }
  }

  /** A sample line starts with a sample key only if it is that sample's
      line. */
  lemma SampleLineKeyed(risks: seq<Risk>, incidents: seq<Incident>, actions: seq<ActionItem>, k: int)
    requires 0 <= k < |SampleLines(risks, incidents, actions)|
    ensures var line := SampleLines(risks, incidents, actions)[k];
      && ("Top Risk: " <= line ==> risks != [])
      && ("Recent Incident: " <= line ==> incidents != [])
      && ("Sample Action: " <= line ==> actions != [])
  {
    var ss := SampleLines(risks, incidents, actions);
    var line := ss[k];
    if risks != [] && k == 0 {
      assert line[0] == 'T';
      DiffersAt(line, "Recent Incident: ", 0);
      DiffersAt(line, "Sample Action: ", 0);
    } else if incidents != [] && k == (if risks != [] then 1 else 0) {
      assert line[0] == 'R' && line[1] == 'e';
      DiffersAt(line, "Top Risk: ", 0);
      DiffersAt(line, "Sample Action: ", 0);
    } else {
      assert actions != [] && k == |ss| - 1;
      assert line[0] == 'S';
      DiffersAt(line, "Top Risk: ", 0);
      DiffersAt(line, "Recent Incident: ", 0);
    }
  }

  /** A line of the prompt starts with a sample key only if it is that
      sample's line, so only if the sample's list is non-empty. */
  lemma KeyedLineNeedsRecord(name: string, risks: seq<Risk>, incidents: seq<Incident>, actions: seq<ActionItem>, i: int)
    requires 0 <= i < |PromptLines(name, risks, incidents, actions)|
    ensures var line := PromptLines(name, risks, incidents, actions)[i];
      && ("Top Risk: " <= line ==> risks != [])
      && ("Recent Incident: " <= line ==> incidents != [])
      && ("Sample Action: " <= line ==> actions != [])
  {
    var hs := HeaderLines(name, risks, incidents, actions);
    var ss := SampleLines(risks, incidents, actions);
    var ls := PromptLines(name, risks, incidents, actions);
    assert ls == hs + ss + [PromptClosing];
    if i < 4 {
      assert ls[i] == hs[i];
      HeaderLinesUnkeyed(name, risks, incidents, actions, i);
    } else if i < 4 + |ss| {
      assert ls[i] == ss[i - 4];
      SampleLineKeyed(risks, incidents, actions, i - 4);
    } else {
      var line := ls[i];
      assert line == PromptClosing;
      assert line[0] == 'S' && line[1] == 'u';
      DiffersAt(line, "Top Risk: ", 0);
      DiffersAt(line, "Recent Incident: ", 0);
      DiffersAt(line, "Sample Action: ", 1);
    }
  }

  /** Each optional sample line is among the prompt lines exactly when its
      list is non-empty. */
  lemma SampleLinesPresence(name: string, risks: seq<Risk>, incidents: seq<Incident>, actions: seq<ActionItem>)
    ensures var ls := PromptLines(name, risks, incidents, actions);
      && (risks != [] <==> HasLineStarting(ls, "Top Risk: "))
      && (incidents != [] <==> HasLineStarting(ls, "Recent Incident: "))
      && (actions != [] <==> HasLineStarting(ls, "Sample Action: "))
  {
    var hs := HeaderLines(name, risks, incidents, actions);
    var ss := SampleLines(risks, incidents, actions);
    var ls := PromptLines(name, risks, incidents, actions);
    assert ls == hs + ss + [PromptClosing];
    if risks != [] {
      assert ls[4] == ss[0];
    }
    if incidents != [] {
      var k := if risks != [] then 1 else 0;
      assert ls[4 + k] == ss[k];
    }
    if actions != [] {
      assert ls[4 + |ss| - 1] == ss[|ss| - 1];
    }
    forall i | 0 <= i < |ls|
      ensures ("Top Risk: " <= ls[i] ==> risks != [])
      ensures ("Recent Incident: " <= ls[i] ==> incidents != [])
      ensures ("Sample Action: " <= ls[i] ==> actions != [])
    {
      KeyedLineNeedsRecord(name, risks, incidents, actions, i);
    }
  }

  // ---------------------------------------------------------------------
  // Reading counts back

  /** The number after `key` on a line, if the line is `key` followed by
      decimal digits. */
  function ReadCount(line: string, key: string): Option<nat> {
    if key <= line then ParseNat(line[|key|..]) else None
  }

  /** The three counts of a prompt, read from its second to fourth lines. */
  function ReadCounts(prompt: string): Option<(nat, nat, nat)> {
    var ls := SplitLines(prompt);
    if |ls| < 4 then None
    else
      match (ReadCount(ls[1], "Risks: "), ReadCount(ls[2], "Incidents: "), ReadCount(ls[3], "Actions: "))
      case (Some(r), Some(i), Some(a)) => Some((r, i, a))
      case _ => None
  }

  lemma ReadCountOf(key: string, n: nat)
    ensures ReadCount(key + NatToString(n), key) == Some(n)
  {
    assert (key + NatToString(n))[|key|..] == NatToString(n);
    ParseNatToString(n);
  }

  /** The counts written into the prompt read back as the sizes of the
      aggregated lists, whatever the sampled records contain, as long as the
      scope name is a single line. */
  lemma PromptCountsRoundTrip(name: string, risks: seq<Risk>, incidents: seq<Incident>, actions: seq<ActionItem>)
    requires '\n' !in name
    ensures ReadCounts(Prompt(name, risks, incidents, actions)) == Some((|risks|, |incidents|, |actions|))
  {
    var hs := HeaderLines(name, risks, incidents, actions);
    var ls := PromptLines(name, risks, incidents, actions);
    assert ls == hs + SampleLines(risks, incidents, actions) + [PromptClosing];
    PromptIsJoinedLines(name, risks, incidents, actions);
    NoNewlineInHeader(name, risks, incidents, actions);
    assert forall i :: 0 <= i < 4 ==> ls[i] == hs[i];
    SplitJoinPrefix(ls, 4);
    ReadCountOf("Risks: ", |risks|);
    ReadCountOf("Incidents: ", |incidents|);
    ReadCountOf("Actions: ", |actions|);
  }

  // ---------------------------------------------------------------------
  // The handler

  /** What the handler returns: the not-found fragment, or the values handed
      to the insights template. */
  datatype InsightsResponse =
    | NodeNotFound(html: string)
    | InsightsFragment(
        node: Node,
        risksCount: nat,
        incidentsCount: nat,
        actionsCount: nat,
        aiInsight: Reply,
        risks: seq<Risk>,
        incidents: seq<Incident>)

  /** `try: ai.get_insight(prompt) except Exception: <apology>`. */
  function InsightOrApology(cfg: Config, prompt: string, oracle: ProviderCall -> Outcome): (r: Reply)
    ensures GetInsight(cfg, prompt, oracle) == Raised ==> r == Str(Unavailable)
    ensures GetInsight(cfg, prompt, oracle).Returned? ==> r == GetInsight(cfg, prompt, oracle).value
  {
    match GetInsight(cfg, prompt, oracle)
    case Returned(v) => v
    case Raised => Str(Unavailable)
  }

  /** `get_insights_htmx(node_id)`: an unknown node gives the not-found
      fragment without aggregating; otherwise the counts cover the node's
      whole scope, the samples are the first three risks and incidents, and
      the insight is the provider's answer to the prompt for that scope. */
  function InsightsPage(t: Tables, rank: int -> nat, nodeId: int, cfg: Config, oracle: ProviderCall -> Outcome): (r: InsightsResponse)
    requires RankedForest(t.nodes, rank)
    ensures r.NodeNotFound? <==> FindNode(t.nodes, Some(nodeId)).None?
    ensures r.NodeNotFound? ==> r.html == NodeNotFoundHtml
    ensures r.InsightsFragment? ==>
      var g := Gather(t, Descendants(t.nodes, rank, nodeId));
      && r.node.id == nodeId && r.node in t.nodes
      && r.risksCount == |g.risks| && r.incidentsCount == |g.incidents| && r.actionsCount == |g.actions|
      && r.risks <= g.risks && |r.risks| == (if |g.risks| < 3 then |g.risks| else 3)
      && r.incidents <= g.incidents && |r.incidents| == (if |g.incidents| < 3 then |g.incidents| else 3)
      && r.aiInsight == InsightOrApology(cfg, Prompt(r.node.name, g.risks, g.incidents, g.actions), oracle)
  {
    match FindNode(t.nodes, Some(nodeId))
    case None => NodeNotFound(NodeNotFoundHtml)
    case Some(node) =>
      var g := Gather(t, Descendants(t.nodes, rank, node.id));
      var prompt := Prompt(node.name, g.risks, g.incidents, g.actions);
      InsightsFragment(
        node,
        |g.risks|,
        |g.incidents|,
        |g.actions|,
        InsightOrApology(cfg, prompt, oracle),
        Head(g.risks, InsightsSampleSize),
        Head(g.incidents, InsightsSampleSize))
  }

  /** A provider exception never escapes the handler: the fragment then
      carries exactly the apology sentence. */
  lemma ProviderFailureBecomesApology(t: Tables, rank: int -> nat, nodeId: int, cfg: Config, oracle: ProviderCall -> Outcome)
    requires RankedForest(t.nodes, rank)
    requires forall c :: oracle(c) == Raised
    requires Ready(BackendOf(cfg.provider), cfg.sdks, cfg.creds)
    requires FindNode(t.nodes, Some(nodeId)).Some?
    ensures InsightsPage(t, rank, nodeId, cfg, oracle).aiInsight == Str(Unavailable)
  {
  }

  /** With the provider unconfigured, the fragment carries that provider's
      "not configured" sentence rather than the apology. */
  lemma UnconfiguredProviderShowsSentinel(t: Tables, rank: int -> nat, nodeId: int, cfg: Config, oracle: ProviderCall -> Outcome)
    requires RankedForest(t.nodes, rank)
    requires !Ready(BackendOf(cfg.provider), cfg.sdks, cfg.creds)
    requires FindNode(t.nodes, Some(nodeId)).Some?
    ensures InsightsPage(t, rank, nodeId, cfg, oracle).aiInsight == Str(SentinelOf(BackendOf(cfg.provider)))
  {
  }
}
