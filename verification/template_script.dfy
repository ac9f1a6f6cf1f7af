/**
 The files the container script rewrites in place: the configuration is taken apart and put together again
 around the distribution's part, then the template variables are replaced line by line.
 */
module TemplateScript {
  import opened TemplateSubstitution
  import opened TemplateNames

  /** A basic regular expression of literal characters and dots. */
  ghost predicate MatchesAt(line: string, pattern: string, p: nat) {
    p + |pattern| <= |line| && forall k :: 0 <= k < |pattern| ==> pattern[k] == '.' || line[p + k] == pattern[k]
  }

  ghost predicate Grep(line: string, pattern: string) {
    exists p :: MatchesAt(line, pattern, p)
  }

  const NET_PATTERN := "lxc.net.0"
  const LXC_PATTERN := "lxc."

  datatype Part = Plain | Extra | Network

  ghost function PartOf(line: string): Part {
    if Grep(line, NET_PATTERN) then Network else if Grep(line, LXC_PATTERN) then Extra else Plain
  }

  /** The lines of one part, in their original order. */
  ghost function LinesOf(lines: seq<string>, part: Part): seq<string> {
    if lines == [] then []
    else
      var rest := LinesOf(lines[..|lines| - 1], part);
      if PartOf(lines[|lines| - 1]) == part then rest + [lines[|lines| - 1]] else rest
  }

  const DISTRIBUTION := ["", "# Distribution configuration"]
  const SPECIFIC := ["", "# Container specific configuration"]
  const NETWORK := ["", "# Network configuration"]

  ghost function Processed(lines: seq<string>, distribution: seq<string>): seq<string> {
    LinesOf(lines, Plain) + (DISTRIBUTION + distribution) + (SPECIFIC + LinesOf(lines, Extra))
    + (NETWORK + LinesOf(lines, Network))
  }

  // ---------- conservation and order ----------

  lemma {:induction false} PartsConserveLines(lines: seq<string>)
    ensures multiset(lines)
         == multiset(LinesOf(lines, Plain)) + multiset(LinesOf(lines, Extra)) + multiset(LinesOf(lines, Network))
    decreases |lines|
  {
    if lines != [] {
      var rest, last := lines[..|lines| - 1], lines[|lines| - 1];
      PartsConserveLines(rest);
      assert lines == rest + [last];
    }
  }

  /** Every original line is there exactly as often as before, plus the distribution's lines and three headings. */
  lemma ProcessedConservesLines(lines: seq<string>, distribution: seq<string>)
    ensures multiset(Processed(lines, distribution))
         == multiset(lines) + multiset(distribution) + multiset(DISTRIBUTION + SPECIFIC + NETWORK)
  {
    PartsConserveLines(lines);
    assert multiset(DISTRIBUTION + SPECIFIC + NETWORK)
        == multiset(DISTRIBUTION) + multiset(SPECIFIC) + multiset(NETWORK);
  }

  /** Where the k-th line of a part stood originally. */
  ghost function Origin(lines: seq<string>, part: Part, k: nat): (i: nat)
    requires k < |LinesOf(lines, part)|
    ensures i < |lines|
  {
    var rest := lines[..|lines| - 1];
    if k < |LinesOf(rest, part)| then Origin(rest, part, k) else |lines| - 1
  }

  /** Each part is stable: it holds lines of its kind only, in the order in which they stood. */
  lemma {:induction false} PartsAreStable(lines: seq<string>, part: Part, k: nat, l: nat)
    requires k < l < |LinesOf(lines, part)|
    ensures LinesOf(lines, part)[k] == lines[Origin(lines, part, k)] && PartOf(LinesOf(lines, part)[k]) == part
    ensures LinesOf(lines, part)[l] == lines[Origin(lines, part, l)] && PartOf(LinesOf(lines, part)[l]) == part
    ensures Origin(lines, part, k) < Origin(lines, part, l)
    decreases |lines|
  {
    var rest := lines[..|lines| - 1];
    if l < |LinesOf(rest, part)| {
      PartsAreStable(rest, part, k, l);
    } else {
      OriginHoldsLine(rest, part, k);
    }
  }

  lemma {:induction false} OriginHoldsLine(lines: seq<string>, part: Part, k: nat)
    requires k < |LinesOf(lines, part)|
    ensures LinesOf(lines, part)[k] == lines[Origin(lines, part, k)] && PartOf(LinesOf(lines, part)[k]) == part
    decreases |lines|
  {
    var rest := lines[..|lines| - 1];
    if k < |LinesOf(rest, part)| {
      OriginHoldsLine(rest, part, k);
    }
  }

  // ---------- where every line ends up ----------

  /** How many lines are of one kind. */
  ghost function Count(lines: seq<string>, part: Part): nat {
    if lines == [] then 0
    else Count(lines[..|lines| - 1], part) + (if PartOf(lines[|lines| - 1]) == part then 1 else 0)
  }

  /** The new place of line i: plain lines, distribution, other lxc lines, network lines, each part as it stood. */
  ghost function Place(lines: seq<string>, distribution: seq<string>, i: nat): nat
    requires i < |lines|
  {
    var mine := Count(lines[..i], PartOf(lines[i]));
    match PartOf(lines[i])
    case Plain => mine
    case Extra => Count(lines, Plain) + 2 + |distribution| + 2 + mine
    case Network => Count(lines, Plain) + 2 + |distribution| + 2 + Count(lines, Extra) + 2 + mine
  }

  /** The rewritten configuration, place by place. */
  ghost predicate Arranged(file: seq<string>, lines: seq<string>, distribution: seq<string>) {
    var d := Count(lines, Plain);
    var e := d + 2 + |distribution|;
    var n := e + 2 + Count(lines, Extra);
    && |file| == |lines| + |distribution| + 6
    && n + 2 + Count(lines, Network) == |file|
    && (forall i :: 0 <= i < |lines| ==> Place(lines, distribution, i) < |file|)
    && (forall i :: 0 <= i < |lines| ==> file[Place(lines, distribution, i)] == lines[i])
    && file[d] == "" && file[d + 1] == "# Distribution configuration"
    && (forall k :: 0 <= k < |distribution| ==> file[d + 2 + k] == distribution[k])
    && file[e] == "" && file[e + 1] == "# Container specific configuration"
    && file[n] == "" && file[n + 1] == "# Network configuration"
  }

  lemma {:induction false} CountIsLength(lines: seq<string>, part: Part)
    ensures Count(lines, part) == |LinesOf(lines, part)|
    decreases |lines|
  {
    if lines != [] {
      CountIsLength(lines[..|lines| - 1], part);
    }
  }

  lemma {:induction false} CountsAddUp(lines: seq<string>)
    ensures Count(lines, Plain) + Count(lines, Extra) + Count(lines, Network) == |lines|
    decreases |lines|
  {
    if lines != [] {
      CountsAddUp(lines[..|lines| - 1]);
    }
  }

  /** A line stands in its part behind the lines of its kind that stood before it. */
  lemma {:induction false} PlaceInPart(lines: seq<string>, i: nat)
    requires i < |lines|
    ensures var part := PartOf(lines[i]);
            && Count(lines[..i], part) < |LinesOf(lines, part)|
            && LinesOf(lines, part)[Count(lines[..i], part)] == lines[i]
    decreases |lines|
  {
    var rest := lines[..|lines| - 1];
    if i < |rest| {
      assert rest[..i] == lines[..i];
      PlaceInPart(rest, i);
    } else {
      CountIsLength(rest, PartOf(lines[i]));
    }
  }

  lemma LinePlaced(lines: seq<string>, distribution: seq<string>, i: nat)
    requires i < |lines|
    ensures Place(lines, distribution, i) < |Processed(lines, distribution)|
    ensures Processed(lines, distribution)[Place(lines, distribution, i)] == lines[i]
  {
    PlaceInPart(lines, i);
    CountIsLength(lines, Plain);
    CountIsLength(lines, Extra);
    CountIsLength(lines, Network);
  }

  /**
   Every line of the configuration, of the distribution and of the headings has its place: plain lines come first,
   then the distribution's, then the other lxc lines, then the network's, each part in its original order.
   */
  lemma ProcessedIsArranged(lines: seq<string>, distribution: seq<string>)
    ensures Arranged(Processed(lines, distribution), lines, distribution)
  {
    CountsAddUp(lines);
    CountIsLength(lines, Plain);
    CountIsLength(lines, Extra);
    CountIsLength(lines, Network);
    forall i | 0 <= i < |lines|
      ensures Place(lines, distribution, i) < |Processed(lines, distribution)|
      ensures Processed(lines, distribution)[Place(lines, distribution, i)] == lines[i]
    {
      LinePlaced(lines, distribution, i);
    }
  }

  /** lxc.net.0 and lxc. at a place of a line, where a dot stands for any character. */
  ghost predicate LxcAt(line: string, p: nat) {
    p + 4 <= |line| && line[p] == 'l' && line[p + 1] == 'x' && line[p + 2] == 'c'
  }

  ghost predicate NetAt(line: string, p: nat) {
    && p + 9 <= |line| && LxcAt(line, p)
    && line[p + 4] == 'n' && line[p + 5] == 'e' && line[p + 6] == 't' && line[p + 8] == '0'
  }

  lemma PatternFound(line: string, p: nat)
    ensures MatchesAt(line, NET_PATTERN, p) <==> NetAt(line, p)
    ensures MatchesAt(line, LXC_PATTERN, p) <==> LxcAt(line, p)
  {
    assert NET_PATTERN == ['l', 'x', 'c', '.', 'n', 'e', 't', '.', '0'];
    if MatchesAt(line, NET_PATTERN, p) {
      assert line[p + 0] == NET_PATTERN[0] && line[p + 1] == NET_PATTERN[1] && line[p + 2] == NET_PATTERN[2];
      assert line[p + 4] == NET_PATTERN[4] && line[p + 5] == NET_PATTERN[5] && line[p + 6] == NET_PATTERN[6];
      assert line[p + 8] == NET_PATTERN[8];
    }
    assert LXC_PATTERN == ['l', 'x', 'c', '.'];
    if MatchesAt(line, LXC_PATTERN, p) {
      assert line[p + 0] == LXC_PATTERN[0] && line[p + 1] == LXC_PATTERN[1] && line[p + 2] == LXC_PATTERN[2];
    }
  }

  /** The kind of a line: network if lxc.net.0 is in it, otherwise extra if lxc with a character behind it is. */
  lemma KindOfLine(line: string)
    ensures PartOf(line) == Network <==> exists p :: NetAt(line, p)
    ensures PartOf(line) == Extra <==> (exists p :: LxcAt(line, p)) && !exists p :: NetAt(line, p)
  {
    forall p: nat ensures MatchesAt(line, NET_PATTERN, p) <==> NetAt(line, p)
                  ensures MatchesAt(line, LXC_PATTERN, p) <==> LxcAt(line, p) {
      PatternFound(line, p);
    }
  }

  // ---------- the passes of extract_config ----------

  ghost function Selected(lines: seq<string>, pattern: string, wanted: bool): seq<string> {
    if lines == [] then []
    else
      var rest := Selected(lines[..|lines| - 1], pattern, wanted);
      if Grep(lines[|lines| - 1], pattern) == wanted then rest + [lines[|lines| - 1]] else rest
  }

  /** A line of the network part also matches the second pattern. */
  lemma NetworkLinesAreLxcLines(line: string)
    ensures Grep(line, NET_PATTERN) ==> Grep(line, LXC_PATTERN)
  {
    if p :| MatchesAt(line, NET_PATTERN, p) {
      assert forall k :: 0 <= k < |LXC_PATTERN| ==> LXC_PATTERN[k] == NET_PATTERN[k];
      assert MatchesAt(line, LXC_PATTERN, p);
    }
  }

  /** So the order of the two passes matters: the other way round there would be no network part. */
  lemma {:induction false} SwappedPassesFindNoNetwork(lines: seq<string>)
    ensures Selected(Selected(lines, LXC_PATTERN, false), NET_PATTERN, true) == []
    decreases |lines|
  {
    if lines != [] {
      var rest, last := lines[..|lines| - 1], lines[|lines| - 1];
      SwappedPassesFindNoNetwork(rest);
      NetworkLinesAreLxcLines(last);
      var kept := Selected(rest, LXC_PATTERN, false);
      assert (kept + [last])[..|kept|] == kept;
    }
  }

  lemma {:induction false} TwoPassesPartition(lines: seq<string>)
    ensures Selected(lines, NET_PATTERN, true) == LinesOf(lines, Network)
    ensures Selected(Selected(lines, NET_PATTERN, false), LXC_PATTERN, true) == LinesOf(lines, Extra)
    ensures Selected(Selected(lines, NET_PATTERN, false), LXC_PATTERN, false) == LinesOf(lines, Plain)
    decreases |lines|
  {
    if lines != [] {
      var rest, last := lines[..|lines| - 1], lines[|lines| - 1];
      TwoPassesPartition(rest);
      var kept := Selected(rest, NET_PATTERN, false);
      assert (kept + [last])[..|kept|] == kept;
    }
  }

  method Greps(line: string, pattern: string) returns (found: bool)
    ensures found == Grep(line, pattern)
  {
    var p := 0;
    while p + |pattern| <= |line|
      invariant forall q: nat :: q < p ==> !MatchesAt(line, pattern, q)
    {
      var k := 0;
      while k < |pattern| && (pattern[k] == '.' || line[p + k] == pattern[k])
        invariant 0 <= k <= |pattern|
        invariant forall q :: 0 <= q < k ==> pattern[q] == '.' || line[p + q] == pattern[q]
      {
        k := k + 1;
      }
      if k == |pattern| {
        assert MatchesAt(line, pattern, p);
        return true;
      }
      p := p + 1;
    }
    found := false;
  }

  // ---------- the files ----------

  /** A line after the passes have gone over it a number of times. */
  function Rounds(line: string, tokens: seq<string>, values: seq<string>, times: nat): string
    requires |values| == |tokens| && NonEmpty(tokens)
  {
    if times == 0 then line else Passes(Rounds(line, tokens, values, times - 1), tokens, values, 0)
  }

  predicate Rewritten(before: seq<string>, after: seq<string>, tokens: seq<string>, values: seq<string>, times: nat)
    requires |values| == |tokens| && NonEmpty(tokens)
  {
    |after| == |before| && forall i :: 0 <= i < |before| ==> after[i] == Rounds(before[i], tokens, values, times)
  }

  /** Every file has had the passes once for every time it is listed. */
  ghost predicate RewrittenFiles(
    before: map<string, seq<string>>, after: map<string, seq<string>>,
    templates: seq<string>, tokens: seq<string>, values: seq<string>)
    requires |values| == |tokens| && NonEmpty(tokens)
  {
    && after.Keys == before.Keys
    && forall file :: file in after ==> Rewritten(before[file], after[file], tokens, values, multiset(templates)[file])
  }

  ghost predicate AllAtOnce(before: seq<string>, after: seq<string>, tokens: seq<string>, values: seq<string>)
    requires |values| == |tokens| && NonEmpty(tokens)
  {
    |after| == |before|
    && forall i :: 0 <= i < |before| ==> after[i] == AtOnce(before[i], tokens, values, |tokens|)
  }

  lemma OneMoreRound(
    start: seq<string>, before: seq<string>, after: seq<string>, tokens: seq<string>, values: seq<string>, times: nat)
    requires |values| == |tokens| && NonEmpty(tokens) && Rewritten(start, before, tokens, values, times)
    requires |after| == |before| && forall i :: 0 <= i < |after| ==> after[i] == Passes(before[i], tokens, values, 0)
    ensures Rewritten(start, after, tokens, values, times + 1)
  {
    forall i | 0 <= i < |start| ensures after[i] == Rounds(start[i], tokens, values, times + 1) {
      assert before[i] == Rounds(start[i], tokens, values, times);
    }
  }

  lemma NextFile(
    start: map<string, seq<string>>, before: map<string, seq<string>>, after: map<string, seq<string>>,
    listed: seq<string>, file: string, tokens: seq<string>, values: seq<string>)
    requires |values| == |tokens| && NonEmpty(tokens) && RewrittenFiles(start, before, listed, tokens, values)
    requires after.Keys == before.Keys
    requires forall other :: other in after && other != file ==> after[other] == before[other]
    requires file in after ==>
               |after[file]| == |before[file]|
               && forall i :: 0 <= i < |after[file]| ==> after[file][i] == Passes(before[file][i], tokens, values, 0)
    ensures RewrittenFiles(start, after, listed + [file], tokens, values)
  {
    forall other | other in after
      ensures Rewritten(start[other], after[other], tokens, values, multiset(listed + [file])[other])
    {
      Listed(listed, file, other);
      var times, more := multiset(listed)[other], multiset(listed + [file])[other];
      assert Rewritten(start[other], before[other], tokens, values, times);
      if other == file {
        OneMoreRound(start[file], before[file], after[file], tokens, values, times);
        assert Rewritten(start[file], after[file], tokens, values, more);
      }
    }
  }

  lemma Listed(listed: seq<string>, file: string, other: string)
    ensures multiset(listed + [file])[other] == multiset(listed)[other] + (if other == file then 1 else 0)
  {}

  lemma ListedOnce(
    before: map<string, seq<string>>, after: map<string, seq<string>>,
    templates: seq<string>, tokens: seq<string>, values: seq<string>)
    requires |values| == |tokens| && NonEmpty(tokens) && RewrittenFiles(before, after, templates, tokens, values)
    requires forall text :: Passes(text, tokens, values, 0) == AtOnce(text, tokens, values, |tokens|)
    ensures forall file :: file in after && multiset(templates)[file] == 1 ==>
              AllAtOnce(before[file], after[file], tokens, values)
  {
    forall file | file in after && multiset(templates)[file] == 1
      ensures AllAtOnce(before[file], after[file], tokens, values)
    {
      assert Rewritten(before[file], after[file], tokens, values, 1);
      forall i | 0 <= i < |before[file]|
        ensures after[file][i] == AtOnce(before[file][i], tokens, values, |tokens|)
      {
        assert Rounds(before[file][i], tokens, values, 1)
            == Passes(Rounds(before[file][i], tokens, values, 0), tokens, values, 0);
      }
    }
  }

  class Files {
    var content: map<string, seq<string>>

    /** sed -i with "w" and "d": matching lines move to another file, which is created in any case. */
    method MoveLines(config: string, target: string, pattern: string)
      requires config in content && config != target
      modifies this
      ensures content == old(content)[config := Selected(old(content)[config], pattern, false)]
                                     [target := Selected(old(content)[config], pattern, true)]
    {
      var lines := content[config];
      var kept: seq<string>, moved: seq<string> := [], [];
      var i := 0;
      while i < |lines|
        invariant 0 <= i <= |lines|
        invariant kept == Selected(lines[..i], pattern, false)
        invariant moved == Selected(lines[..i], pattern, true)
        invariant content == old(content)
      {
        assert lines[..i + 1][..i] == lines[..i];
        var matches := Greps(lines[i], pattern);
        if matches {
          moved := moved + [lines[i]];
        } else {
          kept := kept + [lines[i]];
        }
        i := i + 1;
      }
      assert lines[..i] == lines;
      content := content[target := moved][config := kept];
    }

    method Append(config: string, lines: seq<string>)
      requires config in content
      modifies this
      ensures content == old(content)[config := old(content)[config] + lines]
    {
      content := content[config := content[config] + lines];
    }

    /** extract_config: the network lines go to one file, then the remaining lxc lines to another. */
    method ExtractConfig(config: string, network: string, extra: string)
      requires config in content && config != network && config != extra && network != extra
      modifies this
      ensures content == old(content)[config := LinesOf(old(content)[config], Plain)]
                                     [network := LinesOf(old(content)[config], Network)]
                                     [extra := LinesOf(old(content)[config], Extra)]
    {
      TwoPassesPartition(content[config]);
      MoveLines(config, network, NET_PATTERN);
      MoveLines(config, extra, LXC_PATTERN);
    }

    /** add_extra_config and add_network_config: a part goes back under its heading and its file goes away. */
    method AddBack(config: string, part: string, heading: seq<string>)
      requires config in content && part in content && config != part
      modifies this
      ensures content == old(content)[config := old(content)[config] + (heading + old(content)[part])] - {part}
    {
      Append(config, heading + content[part]);
      content := content - {part};
    }

    /** The distribution's lines and the two extracted parts go behind what is left of the configuration. */
    method PutBack(config: string, network: string, extra: string, distribution: string)
      requires {config, network, extra, distribution} <= content.Keys
      requires config != network && config != extra && network != extra
      requires distribution !in {config, network, extra}
      modifies this
      ensures content == (old(content) - {network, extra})
                         [config := old(content)[config] + (DISTRIBUTION + old(content)[distribution])
                                    + (SPECIFIC + old(content)[extra]) + (NETWORK + old(content)[network])]
    {
      Append(config, DISTRIBUTION + content[distribution]);
      AddBack(config, extra, SPECIFIC);
      AddBack(config, network, NETWORK);
    }

    /** The four steps of process_config. */
    method Reassemble(config: string, network: string, extra: string, distribution: string)
      requires config in content && distribution in content
      requires config != network && config != extra && network != extra
      requires distribution !in {config, network, extra}
      modifies this
      ensures content == (old(content) - {network, extra})
                         [config := Processed(old(content)[config], old(content)[distribution])]
    {
      ghost var before := content;
      ExtractConfig(config, network, extra);
      assert content - {network, extra, config} == before - {network, extra, config};
      PutBack(config, network, extra, distribution);
    }

    /**
     process_config. Without a distribution file nothing happens; otherwise the configuration becomes its
     three parts with the distribution's lines in between, and both intermediate files are gone.
     */
    method ProcessConfig(config: string, network: string, extra: string, distribution: string) returns (done: bool)
      requires config in content
      requires config != network && config != extra && network != extra
      requires distribution !in {config, network, extra}
      modifies this
      ensures done <==> distribution in old(content)
      ensures !done ==> content == old(content)
      ensures done ==>
                content == (old(content) - {network, extra})
                           [config := Processed(old(content)[config], old(content)[distribution])]
      ensures done ==> Arranged(content[config], old(content)[config], old(content)[distribution])
    {
      if distribution !in content {
        return false;
      }
      ProcessedIsArranged(content[config], content[distribution]);
      Reassemble(config, network, extra, distribution);
      done := true;
    }

    /** One sed substitution over a file, line by line. */
    method Substitute(file: string, token: string, value: string)
      requires file in content && token != ""
      modifies this
      ensures content.Keys == old(content).Keys && |content[file]| == |old(content)[file]|
      ensures forall i :: 0 <= i < |content[file]| ==> content[file][i] == Replace(old(content)[file][i], token, value)
      ensures forall other :: other in content && other != file ==> content[other] == old(content)[other]
    {
      var lines := content[file];
      var replaced: seq<string> := [];
      var i := 0;
      while i < |lines|
        invariant 0 <= i <= |lines| && |replaced| == i
        invariant forall k :: 0 <= k < i ==> replaced[k] == Replace(lines[k], token, value)
        invariant content == old(content)
      {
        replaced := replaced + [Replace(lines[i], token, value)];
        i := i + 1;
      }
      content := content[file := replaced];
    }

    /** The substitutions of one template file, one pass per token. */
    method SubstituteAll(file: string, tokens: seq<string>, values: seq<string>)
      requires file in content && |values| == |tokens| && NonEmpty(tokens)
      modifies this
      ensures content.Keys == old(content).Keys && |content[file]| == |old(content)[file]|
      ensures forall i :: 0 <= i < |content[file]| ==>
                content[file][i] == Passes(old(content)[file][i], tokens, values, 0)
      ensures forall other :: other in content && other != file ==> content[other] == old(content)[other]
    {
      var n := 0;
      while n < |tokens|
        invariant 0 <= n <= |tokens|
        invariant content.Keys == old(content).Keys && |content[file]| == |old(content)[file]|
        invariant forall i :: 0 <= i < |content[file]| ==>
                    Passes(content[file][i], tokens, values, n) == Passes(old(content)[file][i], tokens, values, 0)
        invariant forall other :: other in content && other != file ==> content[other] == old(content)[other]
      {
        Substitute(file, tokens[n], values[n]);
        n := n + 1;
      }
    }

    /** The loop over the listed files, for any tokens. */
    method SubstituteFiles(templates: seq<string>, tokens: seq<string>, values: seq<string>)
      requires |values| == |tokens| && NonEmpty(tokens)
      modifies this
      ensures RewrittenFiles(old(content), content, templates, tokens, values)
    {
      var t := 0;
      while t < |templates|
        invariant 0 <= t <= |templates|
        invariant RewrittenFiles(old(content), content, templates[..t], tokens, values)
      {
        ghost var before := content;
        if templates[t] in content {
          SubstituteAll(templates[t], tokens, values);
        }
        NextFile(old(content), before, content, templates[..t], templates[t], tokens, values);
        assert templates[..t + 1] == templates[..t] + [templates[t]];
        t := t + 1;
      }
      assert templates[..t] == templates;
    }

    /**
     replace_template_vars: a file gets the five passes once for every time it is listed, and no other file
     changes. With values that always substitute at once, a file listed once has all its tokens replaced at once.
     */
    method ReplaceTemplateVars(templates: seq<string>, values: seq<string>)
      requires |values| == |TOKENS| && NonEmpty(TOKENS)
      modifies this
      ensures RewrittenFiles(old(content), content, templates, TOKENS, values)
      ensures AlwaysAtOnce(values) ==>
                forall file :: file in content && multiset(templates)[file] == 1 ==>
                  AllAtOnce(old(content)[file], content[file], TOKENS, values)
    {
      SubstituteFiles(templates, TOKENS, values);
      if AlwaysAtOnce(values) {
        ListedOnce(old(content), content, templates, TOKENS, values);
      }
    }
  }
}
