/**
 The result writer: the text of one sample's `<sample>.tsv` file. A header line,
 then one line per gene in ranking order, holding the gene symbol, a tab and the
 gene's entries as `id:score`, comma-separated.

 `render` stands for Python's `str(float)`; which digits it produces is not
 modelled, only that it is a function of the score.
 */
module Report {
  import opened Strings
  import opened Evidence
  import opened Ranking
  import opened Sequences

  /** The first line of every result file, without its newline. */
  const Header: string := "gene\tscores"

  /** One entry as written: `pubmedId + ":" + str(score)`. */
  function Item(e: Entry, render: real -> string): string {
    e.id + ":" + render(e.score)
  }

  /** The written form of each entry of a gene, in stored order. */
  function Items(entries: seq<Entry>, render: real -> string): (items: seq<string>)
    ensures |items| == |entries|
    ensures forall k :: 0 <= k < |entries| ==> items[k] == Item(entries[k], render)
  {
    seq(|entries|, k requires 0 <= k < |entries| => Item(entries[k], render))
  }

  lemma ItemsSnoc(entries: seq<Entry>, i: nat, render: real -> string)
    requires i < |entries|
    ensures Items(entries[..i + 1], render) == Items(entries[..i], render) + [Item(entries[i], render)]
  {
  }

  /** One gene's line without its newline: symbol, tab, comma-joined entries. */
  function Line(gene: Gene, entries: seq<Entry>, render: real -> string): string {
    gene + "\t" + Join(Items(entries, render), ',')
  }

  /** The lines of `genes`, each followed by a newline. */
  function Body(d: Dict, genes: seq<Gene>, render: real -> string): string {
    if genes == [] then ""
    else Line(genes[0], d.Lookup(genes[0]), render) + "\n" + Body(d, genes[1..], render)
  }

  /** Everything `writeLovdResultsToFile` writes for the dictionary `d`. */
  function FileText(d: Dict, render: real -> string): string {
    Header + "\n" + Body(d, RetrieveSortedAmelieList(d), render)
  }

  /** The writer's loops: the header, then per ranked gene its symbol and a tab, its
      entries (see WriteScores) and a newline. The returned text is what ends up in
      the file. */
  method WriteLovdResultsToFile(lovdAmelieOutput: Dict, render: real -> string) returns (text: string)
    requires lovdAmelieOutput.Valid()
    ensures text == FileText(lovdAmelieOutput, render)
  {
    text := "gene\tscores\n";
    var genes := RetrieveSortedAmelieList(lovdAmelieOutput);
    RankedGenes(lovdAmelieOutput);
    ghost var goal := Header + "\n" + Body(lovdAmelieOutput, genes, render);
    assert text == Header + "\n";
    var n := 0;
    assert genes[n..] == genes;
    while n < |genes|
      invariant 0 <= n <= |genes|
      invariant text + Body(lovdAmelieOutput, genes[n..], render) == goal
    {
      var gene := genes[n];
      var scores := WriteScores(lovdAmelieOutput.values[gene], render);
      ghost var before := text;
      BodyStep(lovdAmelieOutput, genes, n, render);
      ghost var rest := Body(lovdAmelieOutput, genes[n + 1..], render);
      text := text + gene + "\t" + scores + "\n";
      Appended(before, gene, scores, rest);
      n := n + 1;
    }
  }

  /** The body from the `n`-th gene on is that gene's line, a newline and the body
      from the next gene on. */
  lemma BodyStep(d: Dict, genes: seq<Gene>, n: nat, render: real -> string)
    requires n < |genes|
    ensures Body(d, genes[n..], render) == Line(genes[n], d.Lookup(genes[n]), render) + "\n" + Body(d, genes[n + 1..], render)
  {
    assert genes[n..][0] == genes[n] && genes[n..][1..] == genes[n + 1..];
  }

  /** Writing a line piece by piece and then the rest of the body gives the same text
      as writing the line and the rest in one go. */
  lemma Appended(before: string, gene: string, scores: string, rest: string)
    ensures before + gene + "\t" + scores + "\n" + rest == before + ((gene + "\t" + scores) + "\n" + rest)
  {
  }

  /** The inner loop of the writer: one gene's entries, a comma before every entry
      but the first. */
  method WriteScores(scores: seq<Entry>, render: real -> string) returns (text: string)
    ensures text == Join(Items(scores, render), ',')
  {
    text := "";
    var i := 0;
    while i < |scores|
      invariant 0 <= i <= |scores|
      invariant text == Join(Items(scores[..i], render), ',')
    {
      var pubmedScore := scores[i];
      ghost var items := Items(scores[..i], render);
      ItemsSnoc(scores, i, render);
      if i > 0 {
        text := text + ",";
        JoinSnoc(items, Item(pubmedScore, render), ',');
      }
      text := text + pubmedScore.id + ":" + render(pubmedScore.score);
      i := i + 1;
    }
    assert scores[..i] == scores;
  }

  /** A header line followed by the body is the newline-join of the header, the
      genes' lines and a final empty piece. */
  lemma {:induction false} BodyIsJoin(d: Dict, first: string, genes: seq<Gene>, render: real -> string)
    ensures first + "\n" + Body(d, genes, render)
         == Join([first] + Lines(d, genes, render) + [""], '\n')
    decreases |genes|
  {
    if genes == [] {
      assert [first] + Lines(d, genes, render) + [""] == [first, ""];
    } else {
      var line := Line(genes[0], d.Lookup(genes[0]), render);
      BodyIsJoin(d, line, genes[1..], render);
      var rest := [line] + Lines(d, genes[1..], render) + [""];
      assert ([first] + Lines(d, genes, render) + [""]) == [first] + rest;
      assert ([first] + rest)[1..] == rest;
    }
  }

  /** The lines of `genes`, without newlines. */
  function Lines(d: Dict, genes: seq<Gene>, render: real -> string): (lines: seq<string>)
    ensures |lines| == |genes|
    ensures forall k :: 0 <= k < |genes| ==> lines[k] == Line(genes[k], d.Lookup(genes[k]), render)
  {
    seq(|genes|, k requires 0 <= k < |genes| => Line(genes[k], d.Lookup(genes[k]), render))
  }

  /** One written entry as read back: the evidence id and the score's text. */
  datatype Cell = Cell(id: string, score: string)

  /** One gene line as read back. */
  datatype Row = Row(gene: Gene, cells: seq<Cell>)

  /** Reads `id:score` back. */
  function ParseItem(s: string): Cell {
    var parts := Split(s, ':');
    Cell(parts[0], if |parts| > 1 then parts[1] else "")
  }

  /** Reads one gene line back. */
  function ParseLine(line: string): Row {
    var cols := Split(line, '\t');
    if |cols| < 2 then Row(cols[0], [])
    else
      var items := Split(cols[1], ',');
      Row(cols[0], seq(|items|, k requires 0 <= k < |items| => ParseItem(items[k])))
  }

  /** Reads a result file back: the lines between the header and the text after the
      final newline. */
  function ParseFile(text: string): seq<Row> {
    var lines := Split(text, '\n');
    if |lines| < 2 then []
    else seq(|lines| - 2, k requires 0 <= k < |lines| - 2 => ParseLine(lines[k + 1]))
  }

  /** None of the file's separators. */
  ghost predicate Plain(s: string) {
    '\n' !in s && '\t' !in s && ',' !in s && ':' !in s
  }

  /** Gene symbols and evidence ids hold none of the separators. */
  ghost predicate PlainNames(d: Dict) {
    && (forall g :: g in d.values ==> Plain(g))
    && (forall g, j :: g in d.values && 0 <= j < |d.values[g]| ==> Plain(d.values[g][j].id))
  }

  /** Gene symbols and evidence ids hold no newline. */
  ghost predicate OneLineNames(d: Dict) {
    && (forall g :: g in d.values ==> '\n' !in g)
    && (forall g, j :: g in d.values && 0 <= j < |d.values[g]| ==> '\n' !in d.values[g][j].id)
  }

  /** The entries of a gene as they read back. */
  function Cells(entries: seq<Entry>, render: real -> string): (cells: seq<Cell>)
    ensures |cells| == |entries|
    ensures forall k :: 0 <= k < |entries| ==> cells[k] == Cell(entries[k].id, render(entries[k].score))
  {
    seq(|entries|, k requires 0 <= k < |entries| => Cell(entries[k].id, render(entries[k].score)))
  }

  /** What a result file should read back as: the ranked genes, each with its entries'
      ids and rendered scores in stored order. */
  function Rows(d: Dict, render: real -> string): (rows: seq<Row>)
  {
    var sorted := RetrieveSortedAmelieList(d);
    seq(|sorted|, k requires 0 <= k < |sorted| => Row(sorted[k], Cells(d.Lookup(sorted[k]), render)))
  }

  /** Reading an entry back gives its id and its rendered score. */
  lemma ItemRoundTrip(e: Entry, render: real -> string)
    requires Plain(e.id) && Plain(render(e.score))
    ensures ParseItem(Item(e, render)) == Cell(e.id, render(e.score))
  {
    assert Join([e.id, render(e.score)], ':') == Item(e, render);
    SplitJoin([e.id, render(e.score)], ':');
  }

  /** Reading a gene line back gives the gene and its entries in stored order. */
  lemma LineRoundTrip(gene: Gene, entries: seq<Entry>, render: real -> string)
    requires |entries| > 0 && Plain(gene)
    requires forall k :: 0 <= k < |entries| ==> Plain(entries[k].id)
    requires forall x :: Plain(render(x))
    ensures ParseLine(Line(gene, entries, render)) == Row(gene, Cells(entries, render))
  {
    var items := Items(entries, render);
    PlainFree(entries, render, ',');
    PlainFree(entries, render, '\t');
    ItemsFree(entries, render, ',');
    ItemsFree(entries, render, '\t');
    JoinFree(items, ',', '\t');
    var joined := Join(items, ',');
    var line := Line(gene, entries, render);
    assert Join([gene, joined], '\t') == line;
    forall k | 0 <= k < 2 ensures '\t' !in [gene, joined][k] {
    }
    SplitJoin([gene, joined], '\t');
    SplitJoin(items, ',');
    var row := ParseLine(line);
    var cells := Cells(entries, render);
    ParsedColumns(line, gene, joined, items);
    forall k | 0 <= k < |items| ensures row.cells[k] == cells[k] {
      ItemRoundTrip(entries[k], render);
    }
    SameElements(row.cells, cells);
  }

  /** A gene line holds no newline when no name or rendered score does. */
  lemma LineFree(gene: Gene, entries: seq<Entry>, render: real -> string)
    requires '\n' !in gene
    requires forall k :: 0 <= k < |entries| ==> '\n' !in entries[k].id
    requires forall x :: '\n' !in render(x)
    ensures '\n' !in Line(gene, entries, render)
  {
    var items := Items(entries, render);
    ItemsFree(entries, render, '\n');
    JoinFree(items, ',', '\n');
  }

  /** No item holds a character other than the colon when no id or rendered score
      does. */
  lemma ItemsFree(entries: seq<Entry>, render: real -> string, c: char)
    requires c != ':'
    requires forall k :: 0 <= k < |entries| ==> c !in entries[k].id
    requires forall x :: c !in render(x)
    ensures forall k :: 0 <= k < |entries| ==> c !in Items(entries, render)[k]
  {
    forall k | 0 <= k < |entries| ensures c !in Items(entries, render)[k] {
      assert c !in entries[k].id && c !in render(entries[k].score);
    }
  }


  /** Plain ids and rendered scores hold none of the separators. */
  lemma PlainFree(entries: seq<Entry>, render: real -> string, c: char)
    requires c == ',' || c == '\t' || c == '\n'
    requires forall k :: 0 <= k < |entries| ==> Plain(entries[k].id)
    requires forall x :: Plain(render(x))
    ensures forall k :: 0 <= k < |entries| ==> c !in entries[k].id
    ensures forall x :: c !in render(x)
  {
    forall x ensures c !in render(x) {
      assert Plain(render(x));
    }
  }

  /** A line split at its one tab into a gene and a list of items. */
  lemma ParsedColumns(line: string, gene: Gene, joined: string, items: seq<string>)
    requires Split(line, '\t') == [gene, joined] && Split(joined, ',') == items
    ensures ParseLine(line).gene == gene
    ensures |ParseLine(line).cells| == |items|
    ensures forall k :: 0 <= k < |items| ==> ParseLine(line).cells[k] == ParseItem(items[k])
  {
  }

  /** The lines of the writer's output: the header, one line per ranked gene, and
      the empty text after the final newline. */
  lemma FileLines(d: Dict, render: real -> string)
    requires d.Valid() && OneLineNames(d)
    requires forall x :: '\n' !in render(x)
    ensures Split(FileText(d, render), '\n')
         == [Header] + Lines(d, RetrieveSortedAmelieList(d), render) + [""]
  {
    var sorted := RetrieveSortedAmelieList(d);
    var lines := Lines(d, sorted, render);
    BodyIsJoin(d, Header, sorted, render);
    var all := [Header] + lines + [""];
    RankedGenes(d);
    LinesFree(d, sorted, render);
    HeaderOneLine();
    FreeFramed(Header, lines, "", '\n');
    SplitJoin(all, '\n');
  }

  lemma HeaderOneLine()
    ensures '\n' !in Header
  {
    forall i | 0 <= i < |Header| ensures Header[i] != '\n' {
    }
  }

  /** No line of the body holds a newline when no name or rendered score does. */
  lemma LinesFree(d: Dict, genes: seq<Gene>, render: real -> string)
    requires forall k :: 0 <= k < |genes| ==> genes[k] in d.values
    requires OneLineNames(d)
    requires forall x :: '\n' !in render(x)
    ensures forall k :: 0 <= k < |genes| ==> '\n' !in Lines(d, genes, render)[k]
  {
    forall k | 0 <= k < |genes| ensures '\n' !in Lines(d, genes, render)[k] {
      var g := genes[k];
      LineFree(g, d.values[g], render);
    }
  }

  /** The writer's output reads back as the header, one line per ranked gene with the
      gene's entries in stored order, and nothing after the last newline, provided
      gene symbols, ids and rendered scores hold none of the separators. */
  lemma ReportRoundTrip(d: Dict, render: real -> string)
    requires d.Valid() && d.NonEmpty() && PlainNames(d)
    requires forall x :: Plain(render(x))
    ensures var lines := Split(FileText(d, render), '\n');
      |lines| == |d.keys| + 2 && lines[0] == Header && lines[|lines| - 1] == ""
    ensures ParseFile(FileText(d, render)) == Rows(d, render)
  {
    var lines := Lines(d, RetrieveSortedAmelieList(d), render);
    RankedGenes(d);
    PlainOneLine(d, render);
    FileLines(d, render);
    RowsRoundTrip(d, render);
    Framed(Header, lines, "");
    ParsedFile(FileText(d, render), Header, lines, Rows(d, render));
  }

  /** Plain names and rendered scores hold no newline. */
  lemma PlainOneLine(d: Dict, render: real -> string)
    requires PlainNames(d)
    requires forall x :: Plain(render(x))
    ensures OneLineNames(d)
    ensures forall x :: '\n' !in render(x)
  {
    forall x ensures '\n' !in render(x) {
      assert Plain(render(x));
    }
  }

  /** A text whose lines are a first line, some body lines and an empty last line
      parses as the parses of its body lines. */
  lemma ParsedFile(text: string, first: string, lines: seq<string>, rows: seq<Row>)
    requires Split(text, '\n') == [first] + lines + [""]
    requires |lines| == |rows| && forall k :: 0 <= k < |lines| ==> ParseLine(lines[k]) == rows[k]
    ensures ParseFile(text) == rows
  {
    var all := [first] + lines + [""];
    Framed(first, lines, "");
    var parsed := ParseFile(text);
    assert |parsed| == |rows|;
    forall k | 0 <= k < |rows| ensures parsed[k] == rows[k] {
      assert parsed[k] == ParseLine(all[k + 1]);
    }
    SameElements(parsed, rows);
  }

  /** Each line of the body reads back as its gene and the gene's entries. */
  lemma RowsRoundTrip(d: Dict, render: real -> string)
    requires d.Valid() && d.NonEmpty() && PlainNames(d)
    requires forall x :: Plain(render(x))
    ensures var lines, rows := Lines(d, RetrieveSortedAmelieList(d), render), Rows(d, render);
      |lines| == |rows| && forall k :: 0 <= k < |lines| ==> ParseLine(lines[k]) == rows[k]
  {
    var genes := RetrieveSortedAmelieList(d);
    var lines, rows := Lines(d, genes, render), Rows(d, render);
    RankedGenes(d);
    forall k | 0 <= k < |genes| ensures ParseLine(lines[k]) == rows[k] {
      var g := genes[k];
      assert Plain(g);
      assert rows[k] == Row(g, Cells(d.Lookup(g), render));
      LineRoundTrip(g, d.values[g], render);
    }
  }
}
