# Edge-list graphs, roads and the tex61 text formatter

This project models two parts of a course repository and proves properties of
the models.

**The trip planner's graph** (`Graph.dfy`, module `Graphs`). A graph keeps two
lists, one of vertices and one of edges. Every query scans the edge list. Vertices
and edges are objects compared by identity. The directed rules come from the base
class `Graph`; the undirected overrides come from `UndirectedGraph`. One class
`Graphs.Graph` carries a `directed` flag, and each overridden query holds both
bodies. Every edge filter the source writes as a loop is an `EdgeTest`, and
`Select(es, t)` is the list of edges passing it. The methods are proved against
`Select`, and the lemmas say what each selection means.

**Roads** (`Distance.dfy`, module `Roads`). A `Distance` is the edge label of the
trip planner's map. It has a name, a length, a start vertex and the compass
direction seen from that start. `direction(v)` and `opposite` are modelled.

**The tex61 formatter** (`Pages.dfy`, `Lines.dfy`, `Tokens.dfy`, `Formatter.dfy`).
- `InputParser` cuts the input into tokens.
- `Controller` sends each token to one of two line assemblers: one for the main
  text, one for endnotes.
- `LineAssembler` builds words and lines, fills, indents and justifies.
- `PageAssembler` counts lines per page and marks each new page with a form feed.
- `PageCollector` hands the lines to a list.

Every class is a Dafny class with the source's fields. Each method's `ensures`
ties the new state to a pure state function: `Assembler` for a line assembler,
`PState` for a page assembler, `Ctl` for a controller, and `Run` for a whole
input. The lemmas are proved about these functions.

Where the program calls `reportError` and then `System.exit`, the method returns
`ok == false`. The state is then the one the program stopped in. `reportError` is
not part of this model; it is taken to only report.

## Where the code and its design description differ

The model follows the code in each case but one, `remove(v1, v2)`: there it models
the code as written beside the evident intent, and the rest of the model uses the
intent (see "## Findings").

- **Undirected successors.** The undirected `successors(v)` takes `getV1()` of
  each edge incident to v. An edge (w, v) therefore makes v its own successor, and
  (u, v) makes v a successor of u but not u a successor of v
  (`UndirectedSelfSuccessor`, `UndirectedOneSided`). The design says the relation
  is symmetric.
- **Self-loops.** The undirected `outEdges`, and so `degree`, leave self-loops
  out. The design says a self-edge counts once. The undirected `remove(v)` removes
  only `outEdges(v)`, so self-loops at v stay (`UndirectedRemoval`).
- **Removing while iterating.** `remove(v1, v2)` removes edges from the list it is
  iterating over. ArrayList's fail-fast iterator then throws
  ConcurrentModificationException on the next step, or the loop ends early and
  leaves later matches in place (`RemoveWhileIterating`, `FirstMatchDecides`).
  `Graph.RemoveBetween` gives the evident intent: every matching edge is gone and
  the others keep their order.
- **Tied labels.** `edgeComparator` answers 1 on tied labels in both orders
  (`EdgeCompareTies`). That breaks the Comparator contract. `EdgeCompare` models
  that comparator on its own: `OrderEdges` sorts by the label comparator itself,
  which agrees with `EdgeCompare` wherever the labels differ.
- **Page length.** After a full page, a non-empty line starts the next page behind
  a form feed and resets the counter to 0, not 1. Every page after the first
  therefore holds height + 1 lines (`PageOfLines`, `SecondPageHoldsThree`). A
  blank or skipped line on a full page is dropped, and a skipped line below the top
  of a page is written as an empty line and counted (`StepCases`).
- **Word length in `addWord(word)`.** The width test and the character count use
  the length of the word being built, not the length of `word`. At the only call
  site the two are the same string.

## Model

| member | source | states |
|---|---|---|
| Graphs.Vertex.constructor | trip_project/graph/Graph.java:39-41 | a new vertex keeps the label it was given |
| Graphs.Edge.constructor | trip_project/graph/Graph.java:63-67 | a new edge is (v0, v1) with the given label, None standing for null |
| Graphs.Edge.GetV | trip_project/graph/Graph.java:87-96 | getV(v) succeeds iff v is an endpoint; then v and the result are the edge's two ends; otherwise the error is NotIncident (IllegalArgumentException) |
| Graphs.GetVReturns | trip_project/graph/Graph.java:87-96 | getV twice from an endpoint comes back to that endpoint |
| Graphs.GetVEnds | trip_project/graph/Graph.java:87-96 | getV at the exit gives the entry and at the entry gives the exit |
| Graphs.SelectMembers | trip_project/graph/Graph.java:293-297 | an edge is in a scan's result iff it is in the edge list and passes the scan's test |
| Graphs.Select | trip_project/graph/Graph.java:291-299 | the scan keeps only edges that pass its test, and never more edges than the list holds |
| Graphs.SelectCounts | trip_project/graph/Graph.java:293-297 | a scan keeps each passing edge as often as it occurs, and no other edge |
| Graphs.SelectAppend | trip_project/graph/Graph.java:293-297 | a scan of two lists in a row is the two scans in a row: the edge-list order is kept |
| Graphs.SelectDistinct | trip_project/graph/Graph.java:293-297 | a scan of a list without repeats has no repeats |
| Graphs.SelectSplits | trip_project/graph/Graph.java:293-297 | the edges passing a test and the edges failing it together number the whole list |
| Graphs.RemoveFirstFacts | trip_project/graph/Graph.java:210 | ArrayList.remove(x) on a list without repeats drops exactly x when present, and the length falls by one |
| Graphs.RemoveFirst | trip_project/graph/Graph.java:213 | ArrayList.remove(x) leaves a list without x as it is, and drops one element from a list holding x |
| Graphs.RemoveFirstDistinct | trip_project/graph/Graph.java:213 | on a list without repeats, removing x is filtering x out |
| Graphs.RemoveStep | trip_project/graph/Graph.java:212-214 | each removal in the loop extends the set of edges filtered out by one |
| Graphs.Graph.Directed | trip_project/graph/Graph.java:357-359 | a new directed graph is valid and has no vertices and no edges |
| Graphs.Graph.Undirected | trip_project/graph/UndirectedGraph.java:19-25 | a new undirected graph is valid, has no vertices and no edges, and is not directed |
| Graphs.Graph.AddVertex | trip_project/graph/Graph.java:181-185 | a fresh vertex with the label is appended; the edges do not change |
| Graphs.Graph.AddEdge | trip_project/graph/Graph.java:190-196 | a fresh edge (from, to) with the label is appended; the vertices do not change |
| Graphs.Graph.AddUnlabelledEdge | trip_project/graph/Graph.java:201-206 | a fresh edge (from, to) with a null label is appended |
| Graphs.Graph.Scan | trip_project/graph/Graph.java:291-299 | the scan loop returns exactly the passing edges in edge-list order |
| Graphs.Graph.OutEdges | trip_project/graph/Graph.java:291-299 | directed: the edges whose exit is v, in order; undirected: the edges incident to v that are not self-loops at v (the override at UndirectedGraph.java:91-101) |
| Graphs.Graph.InEdges | trip_project/graph/Graph.java:302-310 | directed: the edges whose entry is v, in order; undirected: the same list as outEdges(v) (the override at UndirectedGraph.java:103-105) |
| Graphs.Graph.OutDegree | trip_project/graph/Graph.java:129-137 | the count of edges leaving v, which is the length of outEdges(v); undirected: the count of non-self-loop edges incident to v (the override at UndirectedGraph.java:28-39) |
| Graphs.Graph.InDegree | trip_project/graph/Graph.java:141-149 | the count of edges entering v, which is the length of inEdges(v); undirected: equal to outDegree(v) (the override at UndirectedGraph.java:41-43) |
| Graphs.Graph.Degree | trip_project/graph/Graph.java:153-155 | degree(v) equals outDegree(v) |
| Graphs.Graph.Contains | trip_project/graph/Graph.java:158-165 | true iff some edge is (u, v); undirected: true iff u != v and some edge has both u and v as endpoints (the override at UndirectedGraph.java:46-58) |
| Graphs.Graph.ContainsLabelled | trip_project/graph/Graph.java:168-177 | the result of the labelled scan, including the NullLabel failure where getLabel() is null; undirected: the labelled scan with the undirected test (the override at UndirectedGraph.java:60-74) |
| Graphs.LabelScanFound | trip_project/graph/Graph.java:168-177 | true only when a passing edge carries the label; NullLabel only when a passing edge has a null label |
| Graphs.LabelScan | trip_project/graph/Graph.java:168-177 | true only when a passing edge in the list carries the label; NullLabel only when a passing edge has a null label |
| Graphs.LabelScanNoNulls | trip_project/graph/Graph.java:168-177 | with no null labels on passing edges, the result is existence of a passing edge with the label |
| Graphs.LinksSymmetric | trip_project/graph/UndirectedGraph.java:60-74 | the undirected contains, labelled or not, is symmetric in u and v |
| Graphs.NoLinkToSelf | trip_project/graph/UndirectedGraph.java:60-74 | the undirected contains(u, u) is false even when u has a self-loop |
| Graphs.Graph.Successors | trip_project/graph/Graph.java:260-267 | the entry vertex of each out-edge of v, in edge-list order; undirected: getV1() of each incident non-self-loop edge (the override at UndirectedGraph.java:76-84) |
| Graphs.Graph.Predecessors | trip_project/graph/Graph.java:270-277 | directed: the exit vertex of each in-edge of v; undirected: equal to successors(v) (the override at UndirectedGraph.java:86-88) |
| Graphs.DirectedNeighbours | trip_project/graph/Graph.java:260-277 | directed: w is a successor of v iff some edge is (v, w), iff v is a predecessor of w |
| Graphs.HeadsOfLeaving | trip_project/graph/Graph.java:260-267 | w is among the entries of v's out-edges iff some edge is (v, w) |
| Graphs.TailsOfEntering | trip_project/graph/Graph.java:270-277 | v is among the exits of w's in-edges iff some edge is (v, w) |
| Graphs.UndirectedSelfSuccessor | trip_project/graph/UndirectedGraph.java:76-84 | undirected: an edge (w, v) with w != v makes v a successor of itself |
| Graphs.UndirectedOneSided | trip_project/graph/UndirectedGraph.java:76-84 | undirected, single edge (u, v) with u != v: v is a successor of u, but u is not a successor of v |
| Graphs.Graph.RemoveEach | trip_project/graph/Graph.java:212-214 | removing each edge of a selection leaves exactly the edges failing its test, in order |
| Graphs.Graph.RemoveVertex | trip_project/graph/Graph.java:209-223 | v leaves the vertex list; directed: every edge at v goes; undirected: all but the self-loops at v go; every edge not at v stays |
| Graphs.DirectedRemoval | trip_project/graph/Graph.java:211-217 | the directed removal keeps exactly the edges with neither end at v |
| Graphs.UndirectedRemoval | trip_project/graph/Graph.java:218-221 | the undirected removal keeps exactly the edges not at v, plus the self-loops at v |
| Graphs.UndirectedRemoveCount | trip_project/graph/Graph.java:218-221 | the undirected remove(v) drops exactly outDegree(v) edges |
| Graphs.Graph.RemoveEdge | trip_project/graph/Graph.java:227-233 | e is removed iff both its ends are vertices of the graph; after that e is gone and every other edge stays |
| Graphs.RemoveWhileIterating | trip_project/graph/Graph.java:237-252 | the loop as written, on ArrayList's iterator: it removes at most one edge, and otherwise fails with ConcurrentModificationException |
| Graphs.NoMatchKeepsAll | trip_project/graph/Graph.java:237-252 | with no matching edge the loop as written ends normally, and its result is the intended one |
| Graphs.FirstMatchDecides | trip_project/graph/Graph.java:237-252 | the first matching edge decides: the loop as written ends normally only when that edge is the last but one, having removed it alone; otherwise it throws |
| Graphs.RemoveFirstAt | trip_project/graph/Graph.java:241 | ArrayList.remove(e) for an edge with no earlier equal drops the edge at its own index |
| Graphs.IteratorThrows | trip_project/graph/Graph.java:237-252 | a matching edge followed by two others makes the loop as written throw, where the intent keeps the other two |
| Graphs.IteratorSkips | trip_project/graph/Graph.java:237-252 | two matching edges: the loop as written removes the first and keeps the second, where the intent removes both |
| Graphs.Graph.RemoveBetween | trip_project/graph/Graph.java:237-252 | every edge matching (v1, v2) is removed (directed: that orientation; undirected: both), the rest stay in order, and contains(v1, v2) then finds nothing |
| Graphs.Graph.OrderEdges | trip_project/graph/Graph.java:352-354 | afterwards the edges are sorted by label under the comparator and are a permutation of the old edges |
| Graphs.InsertSorted | trip_project/graph/Graph.java:352-354 | inserting an edge into a list sorted by label keeps it sorted |
| Graphs.Insert | trip_project/graph/Graph.java:352-354 | one insertion step of the sort adds exactly one edge |
| Graphs.InsertPermutes | trip_project/graph/Graph.java:352-354 | inserting adds exactly the one edge |
| Graphs.EdgeCompare | trip_project/graph/Graph.java:333-346 | the edge comparator never answers 0, and agrees with the label comparator wherever that is non-zero |
| Graphs.EdgeCompareTies | trip_project/graph/Graph.java:336-343 | on tied labels both orders answer "greater", so the signs of compare(x, y) and compare(y, x) are not opposite, as the Comparator contract requires |
| Roads.Distance.Direction | trip_project/trip/Distance.java:46-52 | from the start vertex, the road's direction; from any other vertex, its opposite, which is a compass direction |
| Roads.Opposite | trip_project/trip/Distance.java:55-65 | north and south swap, east gives west, anything else gives east; the result is a compass direction different from the input |
| Roads.OppositeInvolution | trip_project/trip/Distance.java:55-65 | on the four compass directions, opposite is its own inverse |
| Roads.OppositeOffCompass | trip_project/trip/Distance.java:62-63 | off the compass, opposite twice gives west and not the input |
| Roads.DirectionsFromBothEnds | trip_project/trip/Distance.java:46-52 | the directions seen from the two ends of a road are opposite |
| Pages.LineList.constructor | textformatter_project/tex61/Controller.java:38 | a new list of lines is empty |
| Pages.Step | textformatter_project/tex61/PageAssembler.java:35-50 | addLine keeps the height, and either leaves the output alone or appends exactly one line |
| Pages.StepCases | textformatter_project/tex61/PageAssembler.java:35-50 | before any line an absent line changes nothing; on a full page a blank or absent line is dropped and any other line starts a new page behind a form feed; otherwise the line, "" for an absent one, is written and counted |
| Pages.Feed | textformatter_project/tex61/PageAssembler.java:35-50 | addLine of each line in turn keeps the height and only appends to the output, at most one line per input line |
| Pages.FeedAppend | textformatter_project/tex61/PageAssembler.java:35-50 | feeding two runs of lines is feeding the first, then the second |
| Pages.FeedAppends | textformatter_project/tex61/PageAssembler.java:35-50 | the output only grows at the end, and the height stays |
| Pages.SkipsAtTop | textformatter_project/tex61/PageAssembler.java:36 | skipped lines at the top of a page have no effect |
| Pages.CounterBounded | textformatter_project/tex61/PageAssembler.java:40-48 | with a positive height, the line counter stays between 0 and the height |
| Pages.UnlimitedWritesAll | textformatter_project/tex61/PageAssembler.java:40-48 | with unlimited height, every present line is written as it is and counted, from the top of a page on |
| Pages.FeedPlain | textformatter_project/tex61/PageAssembler.java:45-48 | present lines that fit on the page are written as they are and counted, an empty one as an empty line |
| Pages.PageOfLines | textformatter_project/tex61/PageAssembler.java:40-48 | from the top of a page, height + 1 printable lines are written, the last one behind a form feed, and the counter is back to 0 |
| Pages.SecondPageHoldsThree | textformatter_project/tex61/PageAssembler.java:40-48 | with height 2, six lines come out as pages of 2, 3 and 1 lines |
| Pages.PageAssembler.constructor | textformatter_project/tex61/PageAssembler.java:24-28 | a new page assembler writes to the given list, with a counter of 0 and unlimited height |
| Pages.PageAssembler.AddLine | textformatter_project/tex61/PageAssembler.java:35-50 | the new page state is one Step of the old |
| Pages.PageAssembler.SetTextHeight | textformatter_project/tex61/PageAssembler.java:53-55 | only the height changes |
| Pages.PageAssembler.Write | textformatter_project/tex61/PageCollector.java:22-24 | the line is appended to the list |
| Lines.Assembler.OutputLine | textformatter_project/tex61/LineAssembler.java:184-214 | an empty pending line changes nothing; otherwise the skips and the line are fed to the page, the line is cleared, and the next line's first-line flag is lastLine |
| Lines.Assembler.AddText | textformatter_project/tex61/LineAssembler.java:59-65 | the text extends the word being built, or starts one; the page does not change |
| Lines.Assembler.FinishWord | textformatter_project/tex61/LineAssembler.java:68-73 | afterwards no word is pending; with none pending, nothing changes; otherwise the word joins the line, after the line is written out first when the word would overflow it |
| Lines.Assembler.AddWord | textformatter_project/tex61/LineAssembler.java:76-85 | a word that fits joins the line's words and the page is untouched; a word that would overflow the line first writes the line out as a non-final line and starts a new line with the word; the word being built is unchanged |
| Lines.Assembler.NewLine | textformatter_project/tex61/LineAssembler.java:164-168 | in fill mode the end of an input line changes nothing; in no-fill mode it writes out the pending line as a non-final line |
| Lines.Assembler.EndParagraph | textformatter_project/tex61/LineAssembler.java:174-177 | afterwards nothing is pending, a paragraph with text makes the next line a first line, and the page gets the pending word's line written out as the paragraph's last line |
| Lines.Assembler.AddLine | textformatter_project/tex61/LineAssembler.java:91-97 | the line goes straight to the page; the line state does not change |
| Lines.Spaces | textformatter_project/tex61/LineAssembler.java:230-237 | strspaces(n) is max(n, 0) spaces |
| Lines.TruncDiv | textformatter_project/tex61/LineAssembler.java:202 | Java's (int) truncation of a quotient: for a non-negative numerator it is division, for a negative one it rounds toward zero, the remainder lying between -b and 0 |
| Lines.Gap | textformatter_project/tex61/LineAssembler.java:202-204 | no gap asks for more than 3 spaces |
| Lines.KeepsConsistent | textformatter_project/tex61/LineAssembler.java:76-85 | every operation keeps the character count equal to the total length of the pending words |
| Lines.AddWordConsistent | textformatter_project/tex61/LineAssembler.java:76-85 | addWord of the word being built keeps the character count right |
| Lines.AddWordFits | textformatter_project/tex61/LineAssembler.java:76-85 | in fill mode, a pending line of two or more words fits the width with single spaces, and an overflowing word starts a new line alone |
| Lines.RoundedPlain | textformatter_project/tex61/LineAssembler.java:198-206 | spreading n blanks over n gaps puts word i exactly i spaces along |
| Lines.RoundedLast | textformatter_project/tex61/LineAssembler.java:198-206 | spreading b blanks puts the last word exactly b spaces along |
| Lines.PlainGap | textformatter_project/tex61/LineAssembler.java:198-206 | one blank per gap gives every gap one space |
| Lines.UncappedGap | textformatter_project/tex61/LineAssembler.java:198-206 | with fewer than 3 blanks per gap, each gap is its exact rounded share, between 0 and 3 |
| Lines.GapsTelescope | textformatter_project/tex61/LineAssembler.java:198-206 | uncapped gaps add up to where the rounding puts the word |
| Lines.PlainLine | textformatter_project/tex61/LineAssembler.java:194-205 | with one blank per gap, the joined words are the words with single spaces |
| Lines.JoinedLength | textformatter_project/tex61/LineAssembler.java:194-205 | a joined line is as long as its words plus its gaps |
| Lines.JoinedStartsWithFirst | textformatter_project/tex61/LineAssembler.java:194 | a joined line starts with its first word |
| Lines.JustifiedWidth | textformatter_project/tex61/LineAssembler.java:219-226 | a justified line of two or more words whose spare width is under 3 spaces per gap comes out exactly as wide as the text width |
| Lines.UnjustifiedLine | textformatter_project/tex61/LineAssembler.java:219-226 | a paragraph's last line, or any line without justification, is the indentation and the words with single spaces |
| Lines.LineStartsIndented | textformatter_project/tex61/LineAssembler.java:191-194 | every output line starts with the indentation, then the first word |
| Lines.SkipsBeforeParagraph | textformatter_project/tex61/LineAssembler.java:249-255 | paragraph skips come only before a paragraph's first line, once something is out, and vanish at the top of a page |
| Lines.FillRestoresJustify | textformatter_project/tex61/LineAssembler.java:124-132 | nofill turns justify off, and fill afterwards restores it |
| Lines.LineAssembler.constructor | textformatter_project/tex61/LineAssembler.java:47-56 | a new assembler is in the initial state (fill and justify on, nothing pending) and feeds the given pages |
| Lines.LineAssembler.AddText | textformatter_project/tex61/LineAssembler.java:59-65 | the new state is Assembler.AddText of the old |
| Lines.LineAssembler.FinishWord | textformatter_project/tex61/LineAssembler.java:68-73 | the new state is Assembler.FinishWord of the old |
| Lines.LineAssembler.AddWord | textformatter_project/tex61/LineAssembler.java:76-85 | the new state is Assembler.AddWord of the old |
| Lines.LineAssembler.AddLine | textformatter_project/tex61/LineAssembler.java:91-97 | the new state is Assembler.AddLine of the old |
| Lines.LineAssembler.SetIndentation | textformatter_project/tex61/LineAssembler.java:100-106 | a negative value stops the run with nothing changed; otherwise the indentation is set |
| Lines.LineAssembler.SetParIndentation | textformatter_project/tex61/LineAssembler.java:109-111 | the paragraph indentation is set to any value |
| Lines.LineAssembler.SetTextWidth | textformatter_project/tex61/LineAssembler.java:114-121 | a value below 0 or below the two indentations together stops the run; otherwise the width is set |
| Lines.LineAssembler.SetFill | textformatter_project/tex61/LineAssembler.java:124-132 | the new state is Assembler.SetFill of the old |
| Lines.LineAssembler.SetJustify | textformatter_project/tex61/LineAssembler.java:137-139 | the justify flag is set |
| Lines.LineAssembler.SetParSkip | textformatter_project/tex61/LineAssembler.java:142-148 | a negative value stops the run; otherwise the skip is set |
| Lines.LineAssembler.SetTextHeight | textformatter_project/tex61/LineAssembler.java:151-157 | a value that is not positive stops the run; otherwise the page height is set |
| Lines.LineAssembler.NewLine | textformatter_project/tex61/LineAssembler.java:164-168 | the new state is Assembler.NewLine of the old |
| Lines.LineAssembler.EndParagraph | textformatter_project/tex61/LineAssembler.java:174-177 | the new state is Assembler.EndParagraph of the old |
| Lines.LineAssembler.OutputLine | textformatter_project/tex61/LineAssembler.java:184-214 | the new state is Assembler.OutputLine of the old |
| Lines.LineAssembler.Emit | textformatter_project/tex61/LineAssembler.java:187-207 | the page receives the paragraph skips, then the line |
| Lines.LineAssembler.BuildLine | textformatter_project/tex61/LineAssembler.java:191-205 | the built text is the indentation, then the words joined with their gaps |
| Lines.LineAssembler.JoinWords | textformatter_project/tex61/LineAssembler.java:194-205 | the loop gives the first word, then each capped rounded gap and its word |
| Lines.LineAssembler.NumOfBlanks | textformatter_project/tex61/LineAssembler.java:219-227 | the spare width when filling and justifying a line that does not end its paragraph; one per gap otherwise |
| Lines.LineAssembler.StrSpaces | textformatter_project/tex61/LineAssembler.java:230-237 | the loop builds exactly Spaces(n) |
| Lines.LineAssembler.Indentation | textformatter_project/tex61/LineAssembler.java:240-246 | paragraph indentation plus indentation on a first line; indentation alone otherwise |
| Lines.LineAssembler.Parskipping | textformatter_project/tex61/LineAssembler.java:249-255 | parskip skipped lines are fed when first holds; otherwise none |
| Tokens.SpanEnd | textformatter_project/tex61/InputParser.java:37-40 | a greedy run: every character up to the end is of the class, and the next one is not |
| Tokens.Balanced | textformatter_project/tex61/InputParser.java:26-28 | no match only on empty input; a match takes at least one character; a well-formed argument is followed by its closing brace |
| Tokens.Lex | textformatter_project/tex61/InputParser.java:37-40 | every token takes between 1 and all of the input's characters; a command's argument is shorter than the input |
| Tokens.LexShape | textformatter_project/tex61/InputParser.java:37-40 | each kind of token occurs iff its pattern matches at the front: blanks, one newline, a paragraph break, text up to a special character, an escape, a backslash and letters |
| Tokens.LexText | textformatter_project/tex61/InputParser.java:40 | a word of ordinary characters up to a special character is one text token |
| Tokens.LexNewline | textformatter_project/tex61/InputParser.java:38 | one end of line not followed by another is a newline token |
| Tokens.ItemsPlain | textformatter_project/tex61/InputParser.java:26-28 | the argument scan stops at the first closing brace of plain text |
| Tokens.BalancedPlain | textformatter_project/tex61/InputParser.java:26-28 | a plain argument followed by a closing brace is matched whole |
| Tokens.LexCommand | textformatter_project/tex61/InputParser.java:108-116 | \name{arg} with a plain argument is one command token carrying arg, and takes exactly its characters |
| Tokens.ParseInt | textformatter_project/tex61/InputParser.java:131-139 | a parsed value is within int range, and the empty string and a bare sign do not parse |
| Tokens.ArgNum | textformatter_project/tex61/InputParser.java:131-139 | a missing argument is not a number |
| Tokens.ToDecimal | textformatter_project/tex61/Controller.java:99 | the decimal digits of n, without a leading zero |
| Tokens.ParseDecimal | textformatter_project/tex61/InputParser.java:131-139 | parsing n's decimal digits, with or without a sign, gives back n or -n |
| Tokens.ParseRejects | textformatter_project/tex61/InputParser.java:131-139 | a non-digit anywhere except a leading sign makes parsing fail |
| Formatter.Ctl.WithLine | textformatter_project/tex61/Controller.java:179-188 | replacing the current assembler changes only the current mode's assembler |
| Formatter.RunStep | textformatter_project/tex61/InputParser.java:95-127 | a token that stops the run ends it there; otherwise processing goes on with the rest of the input |
| Formatter.Run | textformatter_project/tex61/InputParser.java:95-127 | process() never lowers the next endnote number, and a run that reaches close() ends in normal mode |
| Formatter.Dispatch | textformatter_project/tex61/InputParser.java:98-124 | one token keeps the mode unless it stops the run, never lowers the endnote number, and a missing argument or an unrecognized character stops the run with nothing changed |
| Formatter.CommandEffect | textformatter_project/tex61/InputParser.java:145-200 | a command keeps the mode unless it stops the run, and only \\endnote changes the endnote number |
| Formatter.Endnote | textformatter_project/tex61/Controller.java:94-106 | an endnote inside an endnote stops the run with nothing changed; an endnote that is read through returns to normal mode with a higher endnote number |
| Formatter.RunEndsNormal | textformatter_project/tex61/InputParser.java:95-127 | a run that is not stopped ends in normal mode |
| Formatter.RunWord | textformatter_project/tex61/InputParser.java:106-107 | a plain word is one addText, then close() |
| Formatter.RunNumeric | textformatter_project/tex61/InputParser.java:148-161 | \\indent, \\parindent, \\textwidth, \\textheight and \\parskip with an int argument call the matching setter with that int; the run goes on with the rest of the input unless the setter stopped it |
| Formatter.LexNumeric | textformatter_project/tex61/InputParser.java:108-116 | a numeric command with a decimal argument is one command token carrying the digits, and reading resumes right after the closing brace |
| Formatter.CommandCases | textformatter_project/tex61/InputParser.java:145-200 | a numeric command whose argument is missing or not an int, a switch given an argument, an endnote without one and an unknown command change nothing and keep going; each switch sets fill or justify; an endnote with an argument is formatEndnote |
| Formatter.EndnoteStep | textformatter_project/tex61/Controller.java:94-106 | formatEndnote is the run of the endnote's text, then the next number if the run was not stopped |
| Formatter.DispatchInEndnote | textformatter_project/tex61/Controller.java:94-98 | a token inside an endnote stays in endnote mode and leaves the main text and the numbering alone |
| Formatter.EndnoteLeavesMain | textformatter_project/tex61/Controller.java:94-106 | reading an endnote leaves the main text and the numbering as they were |
| Formatter.EndnoteEffect | textformatter_project/tex61/Controller.java:94-106 | an endnote in an endnote stops the run; otherwise the main text gets only the mark "[n]", the mode is normal again, and the next endnote is n + 1 |
| Formatter.AddLinesFeed | textformatter_project/tex61/Controller.java:191-195 | the endnote lines reach the main page assembler as they are, in order |
| Formatter.AddLines | textformatter_project/tex61/Controller.java:191-195 | adding lines leaves the assembler's line state and the page height alone |
| Formatter.CloseEffect | textformatter_project/tex61/Controller.java:169-176 | close() ends the paragraph; in normal mode it then feeds every endnote line to the main text, and in endnote mode it returns to normal mode |
| Formatter.EndnotesAppended | textformatter_project/tex61/Controller.java:191-195 | when the endnote lines fit on the main text's current page, or the page has no height limit, the main output ends with exactly the endnote lines |
| Formatter.NewAssembler | textformatter_project/tex61/Controller.java:39-40 | a fresh line assembler in the initial state, over a fresh page assembler writing to the given list |
| Formatter.Controller.constructor | textformatter_project/tex61/Controller.java:35-54 | the controller starts with both assemblers set from the defaults, in normal mode, with endnote 1 next |
| Formatter.Start | textformatter_project/tex61/Controller.java:35-54 | the state after the constructor: normal mode, next endnote 1, empty pages of the default text height and of no height limit, nothing pending, widths from the defaults |
| Formatter.Controller.EndnoteDefaults | textformatter_project/tex61/Controller.java:42-46 | the endnote assembler gets the endnote defaults |
| Formatter.Controller.MainDefaults | textformatter_project/tex61/Controller.java:48-53 | the main assembler gets the main defaults and normal mode is restored |
| Formatter.Controller.AddText | textformatter_project/tex61/Controller.java:60-62 | the current mode's assembler gets the text |
| Formatter.Controller.EndWord | textformatter_project/tex61/Controller.java:69-71 | the current word is finished |
| Formatter.Controller.AddNewline | textformatter_project/tex61/Controller.java:77-80 | the word is finished, then the input line ends |
| Formatter.Controller.EndParagraph | textformatter_project/tex61/Controller.java:86-88 | the current paragraph ends |
| Formatter.Controller.FormatEndnote | textformatter_project/tex61/Controller.java:94-106 | the new state and outcome are exactly those of the endnote function (see EndnoteEffect) |
| Formatter.Controller.NextRefNum | textformatter_project/tex61/Controller.java:105 | only the endnote number goes up by one |
| Formatter.Controller.ProcessEndnote | textformatter_project/tex61/Controller.java:104 | the endnote parser's process() is the run of the endnote's text |
| Formatter.Controller.SetTextHeight | textformatter_project/tex61/Controller.java:112-116 | ignored in endnote mode; otherwise the main assembler's setTextHeight |
| Formatter.Controller.SetTextWidth | textformatter_project/tex61/Controller.java:122-124 | the current assembler's setTextWidth, with its error case |
| Formatter.Controller.SetIndentation | textformatter_project/tex61/Controller.java:130-132 | the current assembler's setIndentation, with its error case |
| Formatter.Controller.SetParIndentation | textformatter_project/tex61/Controller.java:139-141 | the current assembler's paragraph indentation is set |
| Formatter.Controller.SetParSkip | textformatter_project/tex61/Controller.java:148-150 | the current assembler's setParSkip, with its error case |
| Formatter.Controller.SetFill | textformatter_project/tex61/Controller.java:153-155 | the current assembler's setFill |
| Formatter.Controller.SetJustify | textformatter_project/tex61/Controller.java:161-163 | the current assembler's setJustify |
| Formatter.Controller.Close | textformatter_project/tex61/Controller.java:169-176 | the new state is close() (see CloseEffect) |
| Formatter.Controller.SetEndnoteMode | textformatter_project/tex61/Controller.java:179-182 | only the mode changes, to endnote mode |
| Formatter.Controller.SetNormalMode | textformatter_project/tex61/Controller.java:185-188 | only the mode changes, to normal mode |
| Formatter.Controller.WriteEndnotes | textformatter_project/tex61/Controller.java:191-195 | every collected endnote line is added to the main text in order (see AddLinesFeed) |
| Formatter.InputParser.constructor | textformatter_project/tex61/InputParser.java:86-89 | a parser of the text, at its start, feeding the controller |
| Formatter.InputParser.Process | textformatter_project/tex61/InputParser.java:95-127 | the controller's new state and the outcome are those of Run on the unread input |
| Formatter.InputParser.Advance | textformatter_project/tex61/InputParser.java:96-124 | one loop round reads at least one character and keeps the rest of the run unchanged, or stops the run |
| Formatter.InputParser.ProcessToken | textformatter_project/tex61/InputParser.java:98-124 | the controller call for one token, or a stop on a missing argument or an unrecognized character |
| Formatter.InputParser.ProcessCommand | textformatter_project/tex61/InputParser.java:145-200 | each command's setter; a bad number, an unexpected argument or a missing endnote argument is caught and changes nothing; an unknown command changes nothing |

## Left out

- Input and output. The InputParser constructor that reads from a `Reader` is left out; the model reads from a string. `PagePrinter` is not part of this model. The main text's page assembler writes to a `LineList`, as the endnote collector does.
- `reportError` and the message printed for a caught `FormatException`. Only their effect on the state is modelled.
- `Defaults` for the formatter is not part of this model. The constructor takes the values as a parameter.
- Formatter.Controller.constructor: requires defaults that none of its setters rejects. The constant defaults are taken to be valid, so the exit path in the constructor is not modelled.
- Lines.Assembler.AddLine: `addLine`'s check for a null word list is left out. The list is never null, so the error branch cannot be reached.
- Lines.Gap: justification uses exact rational rounding of `(int)(0.5 + blanks / (n - 1) * i)`. Floating-point rounding error is not modelled.
- Integers in the formatter's settings and counters are unbounded. Java's 32-bit overflow of sums such as indentation plus characters is not modelled. Command arguments are bounded to int range, as `Integer.parseInt` bounds them.
- Lines.Assembler.AddWord: string lengths count Unicode characters, where Java's `String.length()` counts UTF-16 code units. A word with a character outside the Basic Multilingual Plane (U+1F600, say) is measured one shorter per such character than the program measures it, so the width test, `chars`, and the line break can differ on such text. Lines.Assembler.FinishWord, Lines.Assembler.OutputLine and Lines.LineAssembler.NumOfBlanks (the spare width, and so the justification gaps) inherit the same difference.
- Tokens.ParseInt: accepts ASCII digits only. `Integer.parseInt` also accepts other Unicode decimal digits.
- Graphs.Graph.RemoveBetween: models the evident result of `remove(v1, v2)`, every matching edge removed. The code as written, which throws ConcurrentModificationException or stops early, is `RemoveWhileIterating` (see "## Findings").
- Graphs.RemoveWhileIterating: `Iteration` is not part of this model. `Iteration.iteration(edges)` is taken to hand out the list's own fail-fast iterator.
- Graphs.Graph.OrderEdges: states that the result is sorted by label and is a permutation. It does not state the order `Collections.sort` gives tied labels; the edge comparator answers 1 both ways on ties (EdgeCompareTies), and the library sort may also throw for such a comparator. The label comparator is required to be a total preorder on the labels present.
- `vertexSize()`, `edgeSize()`, `vertices()` and `edges()` are the lengths and contents of the two list fields. `neighbors(v)` and `edges(v)` are defined as `successors(v)` and `outEdges(v)`. The lazy, one-shot `Iteration` wrapper is not modelled.
- `naturalOrder()` and `toString()`. Both are library glue, and `toString` is only output formatting.
- Roads: the road's weight is a floating-point value in the source. Here it is an opaque type parameter that is carried and never computed with. The getters are the datatype's fields.
- Null references. A null vertex, a null edge and a null label argument to `contains(u, v, label)` cannot be expressed: vertices and edges are non-null references, and the label argument is a label, not an optional one. Only a null label carried by an edge is modelled (None), with the NullPointerException it raises.
- DirectedGraph.java is not part of this model. The directed graph is the base class with `directed` set.

## Findings

| source | as written | input that shows it | evidently intended | confidence | as-written member | corrected member |
|---|---|---|---|---|---|---|
| trip_project/graph/Graph.java:237-252 | `for (Edge e : edges())` calls `edges.remove(e)` on the list it iterates, so the fail-fast iterator throws on its next step or the loop ends early | edges [(v1, v2), (a, b), (c, d)]: ConcurrentModificationException after the first removal; edges [(v1, v2), (v1, v2)]: the loop ends after one removal and the second edge stays | every edge between v1 and v2 removed, the others kept in order | not executed; assumes `Iteration.iteration` hands out the list's own iterator | Graphs.RemoveWhileIterating, Graphs.IteratorThrows, Graphs.IteratorSkips | Graphs.Graph.RemoveBetween |
