/**
 * The generation endpoint: it turns the request's node and edge trees into a
 * system prompt and sends that prompt, followed by the caller's messages, to the
 * model.
 */
module AiRoute {
  import opened Common
  import opened Strings
  import opened Json
  import opened Context

  /** A node of the tree as one prompt line: `- <type>: <JSON of its data>`. */
  function NodeLine(n: ContextNode, stringify: Json -> string): string
  {
    "- " + n.nodeType + ": " + stringify(n.data)
  }

  /** An edge of the tree as one prompt line: `- <source> -> <target>`. */
  function EdgeLine(e: ContextEdge): string
  {
    "- " + e.source + " -> " + e.target
  }

  function NodeLines(nodes: seq<ContextNode>, stringify: Json -> string): (r: seq<string>)
    ensures |r| == |nodes| && forall k :: 0 <= k < |r| ==> r[k] == NodeLine(nodes[k], stringify)
  {
    seq(|nodes|, k requires 0 <= k < |nodes| => NodeLine(nodes[k], stringify))
  }

  function EdgeLines(edges: seq<ContextEdge>): (r: seq<string>)
    ensures |r| == |edges| && forall k :: 0 <= k < |r| ==> r[k] == EdgeLine(edges[k])
  {
    seq(|edges|, k requires 0 <= k < |edges| => EdgeLine(edges[k]))
  }

  /** `nodeTree.find((n) => n.id === currentNodeId)?.data`. */
  function CurrentData(nodes: seq<ContextNode>, id: string): (r: Option<Json>)
    ensures r.None? <==> forall i :: 0 <= i < |nodes| ==> nodes[i].id != id
    ensures r.Some? ==> exists i :: 0 <= i < |nodes| && nodes[i].id == id && nodes[i].data == r.value
                                    && forall j :: 0 <= j < i ==> nodes[j].id != id
  {
    if |nodes| == 0 then None
    else if nodes[0].id == id then Some(nodes[0].data)
    else
      var r := CurrentData(nodes[1..], id);
      assert forall j :: 1 <= j < |nodes| ==> nodes[j] == nodes[1..][j - 1];
      r
  }

  /** `JSON.stringify` of a possibly missing value inside a template: "undefined" when missing. */
  function StringifyOpt(v: Option<Json>, stringify: Json -> string): string
  {
    match v
    case Some(d) => stringify(d)
    case None => "undefined"
  }

  // The fixed lines, written in short pieces so that the verifier can see they hold no line break.
  const Preamble: string := "  You are a Graph " + "empowered LLM. " + "Analyze this node " + "tree and user input:"

  const RulesHeader: string := "  RESPONSE RULES:"
  const Rule1: string := "  1. Maintain " + "logical workflow " + "continuity"
  const Rule2: string := "  2. Try to respond " + "with at least 5 " + "nodes, but try for " + "more where possible."
  const Rule3: string := "  3. Only use " + "appropriate node " + "types for the " + "given request."
  const Rules: seq<string> := [RulesHeader, Rule1, Rule2, Rule3, "  "]

  function NodeHeader(count: nat): string
  {
    "  CURRENT NODE TREE (" + NatToString(count) + " nodes):"
  }

  function EdgeHeader(count: nat): string
  {
    "  CURRENT EDGE TREE (" + NatToString(count) + " edges):"
  }

  function CurrentHeader(id: string): string
  {
    "  CURRENT NODE (" + id + "):"
  }

  /** `<currentNodeType>: <JSON of the current node's data>`, with the template's indentation. */
  function CurrentLine(req: Request, stringify: Json -> string): string
  {
    "  " + req.currentNodeType + ": " + StringifyOpt(CurrentData(req.nodeTree, req.currentNodeId), stringify)
  }

  /** The system prompt as the template literal builds it, line break by line break. */
  function SystemPrompt(req: Request, stringify: Json -> string): string
  {
    "\n" + Preamble + "\n" + NodeHeader(|req.nodeTree|)
    + "\n" + ("  " + Join(NodeLines(req.nodeTree, stringify), "\n"))
    + "\n" + ("\n" + EdgeHeader(|req.edgeTree|))
    + "\n" + ("  " + Join(EdgeLines(req.edgeTree), "\n"))
    + "\n" + ("\n" + CurrentHeader(req.currentNodeId) + "\n" + CurrentLine(req, stringify) + "\n")
    + "\n" + Join(Rules, "\n")
  }

  /** A list block as it appears in the prompt: only its first line carries the template's indentation. */
  function Indented(lines: seq<string>): (r: seq<string>)
    ensures |r| >= 1
  {
    if |lines| == 0 then ["  "] else ["  " + lines[0]] + lines[1..]
  }

  /** The lines of the system prompt, one entry per line of the text. */
  function PromptLines(req: Request, stringify: Json -> string): seq<string>
  {
    ["", Preamble, NodeHeader(|req.nodeTree|)]
    + Indented(NodeLines(req.nodeTree, stringify))
    + ["", EdgeHeader(|req.edgeTree|)]
    + Indented(EdgeLines(req.edgeTree))
    + ["", CurrentHeader(req.currentNodeId), CurrentLine(req, stringify), ""]
    + Rules
  }

  lemma {:induction false} JoinIndented(lines: seq<string>)
    ensures Join(Indented(lines), "\n") == "  " + Join(lines, "\n")
  {
    if |lines| >= 2 {
      assert Indented(lines) == ["  " + lines[0]] + lines[1..];
      JoinAppend(["  " + lines[0]], lines[1..], "\n");
      JoinAppend([lines[0]], lines[1..], "\n");
      assert [lines[0]] + lines[1..] == lines;
    }
  }

  /** The template is the prompt's lines joined by newlines. */
  lemma SystemPromptIsJoin(req: Request, stringify: Json -> string)
    ensures SystemPrompt(req, stringify) == Join(PromptLines(req, stringify), "\n")
  {
    TemplateJoin(Preamble, NodeHeader(|req.nodeTree|), NodeLines(req.nodeTree, stringify),
                 EdgeHeader(|req.edgeTree|), EdgeLines(req.edgeTree),
                 CurrentHeader(req.currentNodeId), CurrentLine(req, stringify), Rules);
  }

  /** The template's shape, for arbitrary pieces. */
  lemma TemplateJoin(pre: string, h1: string, nls: seq<string>, h2: string, els: seq<string>,
                     c1: string, c2: string, rules: seq<string>)
    requires |rules| >= 1
    ensures "\n" + pre + "\n" + h1
            + "\n" + ("  " + Join(nls, "\n"))
            + "\n" + ("\n" + h2)
            + "\n" + ("  " + Join(els, "\n"))
            + "\n" + ("\n" + c1 + "\n" + c2 + "\n")
            + "\n" + Join(rules, "\n")
         == Join(["", pre, h1] + Indented(nls) + ["", h2] + Indented(els) + ["", c1, c2, ""] + rules, "\n")
  {
    var nl := "\n";
    var head := ["", pre, h1];
    var ns := Indented(nls);
    var mid := ["", h2];
    var es := Indented(els);
    var cur := ["", c1, c2, ""];
    var p1 := nl + pre + nl + h1;
    assert Join(head, nl) == p1 by { JoinBlankThen2(pre, h1, nl); }
    var p2 := p1 + nl + ("  " + Join(nls, nl));
    assert Join(head + ns, nl) == p2 by { JoinAppend(head, ns, nl); JoinIndented(nls); }
    var p3 := p2 + nl + (nl + h2);
    assert Join(head + ns + mid, nl) == p3 by { JoinAppend(head + ns, mid, nl); JoinBlankThen(h2, nl); }
    var p4 := p3 + nl + ("  " + Join(els, nl));
    assert Join(head + ns + mid + es, nl) == p4 by { JoinAppend(head + ns + mid, es, nl); JoinIndented(els); }
    var p5 := p4 + nl + (nl + c1 + nl + c2 + nl);
    assert Join(head + ns + mid + es + cur, nl) == p5 by {
      JoinAppend(head + ns + mid + es, cur, nl);
      JoinCurrentBlock(c1, c2, nl);
    }
    JoinAppend(head + ns + mid + es + cur, rules, nl);
  }

  lemma JoinBlankThen(h: string, sep: string)
    ensures Join(["", h], sep) == sep + h
  {
    JoinCons("", [h], sep);
    assert "" + sep == sep;
  }

  lemma JoinBlankThen2(a: string, b: string, sep: string)
    ensures Join(["", a, b], sep) == sep + a + sep + b
  {
    JoinCons(a, [b], sep);
    JoinCons("", [a, b], sep);
    assert "" + sep == sep;
    assert Join(["", a, b], sep) == sep + (a + sep + b);
  }

  lemma JoinCurrentBlock(c1: string, c2: string, sep: string)
    ensures Join(["", c1, c2, ""], sep) == sep + c1 + sep + c2 + sep
  {
    JoinCons(c2, [""], sep);
    assert Join([c2, ""], sep) == c2 + sep;
    JoinCons(c1, [c2, ""], sep);
    assert Join([c1, c2, ""], sep) == c1 + sep + c2 + sep;
    JoinCons("", [c1, c2, ""], sep);
  }

  /** No part of the request that reaches the prompt contains a line break. */
  predicate SingleLineFields(req: Request, stringify: Json -> string)
  {
    && Unbroken(NodeLines(req.nodeTree, stringify))
    && Unbroken(EdgeLines(req.edgeTree))
    && '\n' !in CurrentHeader(req.currentNodeId) && '\n' !in CurrentLine(req, stringify)
  }

  /**
   * Reading the prompt back line by line gives its structure: the header with the
   * node count, one line per node in order, the edge header with the edge count, one
   * line per edge in order, the current node with its data, and the fixed rules.
   */
  lemma PromptLinesRoundTrip(req: Request, stringify: Json -> string)
    requires SingleLineFields(req, stringify)
    ensures Split(SystemPrompt(req, stringify), '\n') == PromptLines(req, stringify)
  {
    SystemPromptIsJoin(req, stringify);
    PromptLinesUnbroken(req, stringify);
    SplitJoin(PromptLines(req, stringify), '\n');
  }

  lemma PromptLinesUnbroken(req: Request, stringify: Json -> string)
    requires SingleLineFields(req, stringify)
    ensures |PromptLines(req, stringify)| >= 1 && Unbroken(PromptLines(req, stringify))
  {
    var head := ["", Preamble, NodeHeader(|req.nodeTree|)];
    var ns := Indented(NodeLines(req.nodeTree, stringify));
    var mid := ["", EdgeHeader(|req.edgeTree|)];
    var es := Indented(EdgeLines(req.edgeTree));
    var cur := ["", CurrentHeader(req.currentNodeId), CurrentLine(req, stringify), ""];
    assert PromptLines(req, stringify) == head + ns + mid + es + cur + Rules;
    NoBreakInNumber(|req.nodeTree|);
    NoBreakInNumber(|req.edgeTree|);
    FixedLinesUnbroken();
    assert Unbroken(head);
    assert Unbroken(mid);
    assert Unbroken(cur);
    NoBreakInIndented(NodeLines(req.nodeTree, stringify));
    NoBreakInIndented(EdgeLines(req.edgeTree));
    UnbrokenAppend(head, ns);
    UnbrokenAppend(head + ns, mid);
    UnbrokenAppend(head + ns + mid, es);
    UnbrokenAppend(head + ns + mid + es, cur);
    UnbrokenAppend(head + ns + mid + es + cur, Rules);
  }

  lemma FixedLinesUnbroken()
    ensures '\n' !in Preamble && Unbroken(Rules)
  {
    assert '\n' !in Preamble by { PreambleUnbroken(); }
    assert '\n' !in RulesHeader by { RulesHeaderUnbroken(); }
    assert '\n' !in Rule1 by { Rule1Unbroken(); }
    assert '\n' !in Rule2 by { Rule2Unbroken(); }
    assert '\n' !in Rule3 by { Rule3Unbroken(); }
  }

  lemma PreambleUnbroken() ensures '\n' !in Preamble {}
  lemma RulesHeaderUnbroken() ensures '\n' !in RulesHeader {}
  lemma Rule1Unbroken() ensures '\n' !in Rule1 {}
  lemma Rule2Unbroken() ensures '\n' !in Rule2 {}
  lemma Rule3Unbroken() ensures '\n' !in Rule3 {}

  /** No line of `ls` contains a line break. */
  predicate Unbroken(ls: seq<string>)
  {
    forall i :: 0 <= i < |ls| ==> '\n' !in ls[i]
  }

  lemma UnbrokenAppend(a: seq<string>, b: seq<string>)
    requires Unbroken(a) && Unbroken(b)
    ensures Unbroken(a + b)
  {
    assert forall i :: |a| <= i < |a + b| ==> (a + b)[i] == b[i - |a|];
  }

  lemma NoBreakInNumber(n: nat)
    ensures '\n' !in NatToString(n)
  {
    var s := NatToString(n);
    NatToStringDigits(n);
    assert forall i :: 0 <= i < |s| ==> s[i] != '\n';
  }

  lemma NoBreakInIndented(lines: seq<string>)
    requires Unbroken(lines)
    ensures Unbroken(Indented(lines))
  {
    if |lines| > 0 {
      assert forall j :: 1 <= j < |Indented(lines)| ==> Indented(lines)[j] == lines[j];
    }
  }

  /** The message list sent to the model: the system prompt, then the caller's messages in order. */
  function ModelMessages(req: Request, stringify: Json -> string): (r: seq<Message>)
    ensures |r| == |req.messages| + 1
    ensures r[0] == Message("system", SystemPrompt(req, stringify))
    ensures r[1..] == req.messages
  {
    [Message("system", SystemPrompt(req, stringify))] + req.messages
  }
}
