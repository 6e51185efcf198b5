/** The paged, depth-limited directory listing (pycodex/tools/list_dir.py). */
module ListDir {
  import opened Prelude
  import Sorting

  /** A directory whose entries cannot be read has none. Links are never followed. */
  datatype Node = File | Symlink | Directory(entries: Option<seq<Entry>>)

  datatype Entry = Entry(name: string, node: Node)

  /** One entry of the listing; `fails` marks an unreadable directory that would be descended into. */
  datatype Line = Line(level: nat, text: string, fails: bool)

  const MAX_ENTRY_CHARS: nat := 500

  function Marker(node: Node): string {
    match node
    case Symlink => "@"
    case Directory(_) => "/"
    case File => ""
  }

  function TruncateEntry(value: string): string {
    if |value| <= MAX_ENTRY_CHARS then value else value[..MAX_ENTRY_CHARS] + "...[truncated]"
  }

  function Indent(level: nat): string { if level == 0 then "" else "  " + Indent(level - 1) }

  function Rendered(line: Line): string { Indent(line.level) + line.text }

  /** String order by code point. */
  predicate NameLe(a: string, b: string) {
    a == "" || (b != "" && (a[0] < b[0] || (a[0] == b[0] && NameLe(a[1..], b[1..]))))
  }

  predicate ByName(a: Entry, b: Entry) { NameLe(a.name, b.name) }

  function Children(entries: seq<Entry>): seq<Entry> { Sorting.Sort(entries, ByName) }

  predicate Descends(entry: Entry, level: nat, depth: nat) { level + 1 < depth && entry.node.Directory? }

  function LineOf(entry: Entry, level: nat, depth: nat): Line {
    var fails := Descends(entry, level, depth) && entry.node.entries.None?;
    Line(level, TruncateEntry(entry.name + Marker(entry.node)), fails)
  }

  /** The complete listing: every entry, each followed by its subdirectory, siblings in order. */
  function Listing(sorted: seq<Entry>, level: nat, depth: nat): seq<Line>
    decreases Max(depth - level, 0), |sorted| + 1
  {
    if sorted == [] then []
    else
      [LineOf(sorted[0], level, depth)] + Below(sorted[0], level, depth) + Listing(sorted[1..], level, depth)
  }

  /** The part of the listing an entry contributes below itself. */
  function Below(entry: Entry, level: nat, depth: nat): seq<Line>
    decreases Max(depth - level, 0), 0
  {
    if Descends(entry, level, depth) && entry.node.entries.Some?
    then Listing(Children(entry.node.entries.value), level + 1, depth) else []
  }

  // ---------------------------------------------------------------------------------------
  // The order of siblings.

  lemma {:induction false} NameLeTotal(a: string, b: string)
    ensures NameLe(a, b) || NameLe(b, a)
  {
    if a != "" && b != "" && a[0] == b[0] {
      NameLeTotal(a[1..], b[1..]);
    }
  }

  lemma {:induction false} NameLeTransitive(a: string, b: string, c: string)
    requires NameLe(a, b) && NameLe(b, c)
    ensures NameLe(a, c)
  {
    if a != "" && a[0] == b[0] && b[0] == c[0] {
      NameLeTransitive(a[1..], b[1..], c[1..]);
    }
  }

  /** Siblings are listed in name order, none added or dropped. */
  lemma ChildrenAreSorted(entries: seq<Entry>)
    ensures Sorting.Sorted(Children(entries), ByName)
    ensures multiset(Children(entries)) == multiset(entries)
  {
    forall a, b
      ensures ByName(a, b) || ByName(b, a)
    {
      NameLeTotal(a.name, b.name);
    }
    forall a, b, c | ByName(a, b) && ByName(b, c)
      ensures ByName(a, c)
    {
      NameLeTransitive(a.name, b.name, c.name);
    }
    Sorting.SortSorts(entries, ByName);
  }

  // ---------------------------------------------------------------------------------------
  // The walk with shared counters.

  datatype Counters = Counters(window: seq<string>, total: nat, capped: bool)

  /** Which entries are wanted, and how many are enumerated at most. */
  datatype Page = Page(start: nat, end: nat, cap: nat)

  function Count(c: Counters, page: Page, line: Line): Counters {
    Counters(if page.start <= c.total < page.end then c.window + [Rendered(line)] else c.window, c.total + 1, c.capped)
  }

  /** Visiting lines one by one; `None` when an unreadable directory stops the walk. */
  function Visit(c: Counters, page: Page, lines: seq<Line>): Option<Counters>
    decreases |lines|
  {
    if lines == [] then Some(c)
    else if c.total >= page.cap then Some(c.(capped := true))
    else if lines[0].fails then None
    else Visit(Count(c, page, lines[0]), page, lines[1..])
  }

  lemma {:induction false} VisitConcat(c: Counters, page: Page, a: seq<Line>, b: seq<Line>)
    ensures Visit(c, page, a + b) ==
      match Visit(c, page, a) case None => None case Some(c') => Visit(c', page, b)
    decreases a
  {
    if a == [] {
      assert a + b == b;
    } else {
      assert (a + b)[1..] == a[1..] + b;
      if c.total < page.cap && !a[0].fails {
        VisitConcat(Count(c, page, a[0]), page, a[1..], b);
      }
    }
  }

  /** One turn of the loop over siblings. */
  lemma VisitSibling(c: Counters, page: Page, siblings: seq<Entry>, level: nat, depth: nat)
    requires siblings != [] && c.total < page.cap
    ensures Visit(c, page, Listing(siblings, level, depth)) ==
      var line := LineOf(siblings[0], level, depth);
      if line.fails then None
      else
        match Visit(Count(c, page, line), page, Below(siblings[0], level, depth))
        case None => None
        case Some(c') => Visit(c', page, Listing(siblings[1..], level, depth))
  {
    var line, below := LineOf(siblings[0], level, depth), Below(siblings[0], level, depth);
    var rest := Listing(siblings[1..], level, depth);
    assert Listing(siblings, level, depth) == [line] + (below + rest);
    VisitConcat(Count(c, page, line), page, below, rest);
  }

  function RenderAll(lines: seq<Line>): seq<string> { seq(|lines|, i requires 0 <= i < |lines| => Rendered(lines[i])) }

  lemma RenderSnoc(lines: seq<Line>, line: Line)
    ensures RenderAll(lines + [line]) == RenderAll(lines) + [Rendered(line)]
  {}

  /** Positions `from..to` of the listing, as far as it goes. */
  function Slice(lines: seq<Line>, from: nat, to: nat): seq<Line> {
    var end := Min(to, |lines|);
    if from <= end then lines[from..end] else []
  }

  lemma SliceSnoc(lines: seq<Line>, n: nat, from: nat, to: nat)
    requires n < |lines|
    ensures Slice(lines[..n + 1], from, to) == Slice(lines[..n], from, to) + if from <= n < to then [lines[n]] else []
  {
    if n < to && from <= n {
      assert lines[..n + 1][from..n + 1] == lines[..n][from..n] + [lines[n]];
    } else if to <= n && from <= to {
      assert lines[..n + 1][from..to] == lines[..n][from..to];
    }
  }

  function Enumerated(lines: seq<Line>, cap: nat): seq<Line> { lines[..Min(cap, |lines|)] }

  /** The walk as one definition over the whole listing: it fails when one of the enumerated entries does;
      otherwise the window is the wanted slice of the listing cut at the cap, the total counts the cut
      listing, and `capped` says that something was cut. */
  lemma {:induction false} VisitFrom(c: Counters, page: Page, lines: seq<Line>, n: nat)
    requires n <= |lines| && n == c.total <= page.cap && !c.capped
    requires c.window == RenderAll(Slice(lines[..n], page.start, page.end))
    requires forall i :: 0 <= i < n ==> !lines[i].fails
    ensures Visit(c, page, lines[n..]) ==
      if exists i :: 0 <= i < Min(page.cap, |lines|) && lines[i].fails then None
      else Some(Counters(RenderAll(Slice(Enumerated(lines, page.cap), page.start, page.end)),
                         Min(page.cap, |lines|), |lines| > page.cap))
    decreases |lines| - n
  {
    if n == |lines| || n >= page.cap {
      assert n == page.cap ==> lines[..n] == Enumerated(lines, page.cap);
      assert n == |lines| ==> lines[..n] == lines && Enumerated(lines, page.cap) == lines;
    } else if !lines[n].fails {
      var c' := Count(c, page, lines[n]);
      assert lines[n..][0] == lines[n] && lines[n..][1..] == lines[n + 1..];
      SliceSnoc(lines, n, page.start, page.end);
      RenderSnoc(Slice(lines[..n], page.start, page.end), lines[n]);
      VisitFrom(c', page, lines, n + 1);
    } else {
      assert lines[n..][0] == lines[n];
    }
  }

  lemma WindowIsSlice(page: Page, lines: seq<Line>)
    ensures Visit(Counters([], 0, false), page, lines) ==
      if exists i :: 0 <= i < Min(page.cap, |lines|) && lines[i].fails then None
      else Some(Counters(RenderAll(Slice(Enumerated(lines, page.cap), page.start, page.end)),
                         Min(page.cap, |lines|), |lines| > page.cap))
  {
    assert lines[..0] == [] && lines[0..] == lines;
    VisitFrom(Counters([], 0, false), page, lines, 0);
  }

  // ---------------------------------------------------------------------------------------
  // Paging.

  function PageAt(offset: nat, limit: nat, cap: nat): Page
    requires offset >= 1
  {
    Page(offset - 1, offset - 1 + limit, cap)
  }

  function WindowOf(lines: seq<Line>, page: Page): seq<Line> {
    Slice(Enumerated(lines, page.cap), page.start, page.end)
  }

  /** The first `count` pages of `limit` entries each, one after the other. */
  function Pages(lines: seq<Line>, limit: nat, cap: nat, count: nat): seq<Line> {
    if count == 0 then []
    else Pages(lines, limit, cap, count - 1) + WindowOf(lines, PageAt((count - 1) * limit + 1, limit, cap))
  }

  /** Consecutive pages tile the listing cut at the cap: no entry twice, none skipped. */
  lemma {:induction false} PagesTile(lines: seq<Line>, limit: nat, cap: nat, count: nat)
    ensures Pages(lines, limit, cap, count) == Slice(Enumerated(lines, cap), 0, count * limit)
  {
    if count > 0 {
      PagesTile(lines, limit, cap, count - 1);
      assert count * limit == (count - 1) * limit + limit;
    }
  }

  datatype Response =
    | EmptyDirectory
    | OffsetOutOfRange
    | OffsetBeyondCap
    | Entries(window: seq<string>, more: More)

  /** The line appended after the window. */
  datatype More = Nothing | AtLeastCap | Exactly(remaining: nat)

  /** `handle`, once the entries are collected. */
  function Respond(c: Counters, offset: nat): Response
    requires offset >= 1 && offset - 1 + |c.window| <= c.total + offset - 1
  {
    if c.total == 0 then (if offset != 1 then OffsetOutOfRange else EmptyDirectory)
    else if c.window == [] then (if c.capped then OffsetBeyondCap else OffsetOutOfRange)
    else
      var remaining := c.total - (offset - 1 + |c.window|);
      Entries(c.window, if remaining > 0 then (if c.capped then AtLeastCap else Exactly(remaining)) else Nothing)
  }

  /** What the caller can conclude. A count of further entries is exact. The absence of one means the end
      of the enumeration, which is the end of the listing unless the cap fell exactly there: then the
      response is silent about the entries beyond. */
  lemma ResponseMeans(lines: seq<Line>, offset: nat, limit: nat, cap: nat)
    requires offset >= 1 && limit >= 1 && cap >= 1
    ensures var window := WindowOf(lines, PageAt(offset, limit, cap));
      var response := Respond(Counters(RenderAll(window), Min(cap, |lines|), |lines| > cap), offset);
      && (response.EmptyDirectory? <==> lines == [] && offset == 1)
      && (response.OffsetBeyondCap? <==> |lines| > cap && offset > cap)
      && (response.OffsetOutOfRange? <==> |lines| <= cap && offset > |lines| && (lines != [] || offset > 1))
      && (response.Entries? ==>
            response.window == RenderAll(window) && window == Slice(lines, offset - 1, Min(offset - 1 + limit, cap)))
      && (response.Entries? && response.more.Exactly? ==> response.more.remaining == |lines| - (offset - 1 + |window|))
      && (response.Entries? && response.more.AtLeastCap? ==> |lines| > cap)
      && (response.Entries? ==>
            (response.more == Nothing && offset - 1 + |window| < |lines| <==> |lines| > cap == offset - 1 + |window|))
  {}

  // ---------------------------------------------------------------------------------------
  // The code: a nested function updating the counters of its caller.

  class Collector {
    const page: Page
    const depth: nat
    var window: seq<string>
    var total: nat
    var capped: bool

    function State(): Counters
      reads this
    {
      Counters(window, total, capped)
    }

    constructor (page: Page, depth: nat)
      ensures this.page == page && this.depth == depth && State() == Counters([], 0, false)
    {
      this.page, this.depth := page, depth;
      window, total, capped := [], 0, false;
    }

    /** `walk`; the result is false when reading a directory raised. */
    method Walk(directory: Option<seq<Entry>>, level: nat) returns (ok: bool)
      modifies this
      ensures directory.None? ==> !ok
      ensures directory.Some? ==>
        Visit(old(State()), page, Listing(Children(directory.value), level, depth)) ==
        if ok then Some(State()) else None
      decreases Max(depth - level, 0), 1
    {
      if directory.None? { return false; }
      var children := Children(directory.value);
      ghost var goal := Visit(State(), page, Listing(children, level, depth));
      for i := 0 to |children|
        invariant Visit(State(), page, Listing(children[i..], level, depth)) == goal
      {
        assert children[i..][0] == children[i] && children[i..][1..] == children[i + 1..];
        if total >= page.cap {
          capped := true;
          return true;
        }
        VisitSibling(State(), page, children[i..], level, depth);
        var entered := VisitChild(children[i], level);
        if !entered { return false; }
      }
      return true;
    }

    /** The body of the loop in `walk`, below the cap. */
    method VisitChild(child: Entry, level: nat) returns (ok: bool)
      requires total < page.cap
      modifies this
      ensures LineOf(child, level, depth).fails ==> !ok
      ensures !LineOf(child, level, depth).fails ==>
        Visit(Count(old(State()), page, LineOf(child, level, depth)), page, Below(child, level, depth))
          == if ok then Some(State()) else None
      decreases Max(depth - level, 0), 0
    {
      if page.start <= total < page.end {
        window := window + [Indent(level) + TruncateEntry(child.name + Marker(child.node))];
      }
      total := total + 1;
      if level + 1 >= depth { return true; }
      if !child.node.Directory? { return true; }
      ok := Walk(child.node.entries, level + 1);
    }
  }

  /** `_collect_window_and_count`. */
  method CollectWindowAndCount(root: Option<seq<Entry>>, depth: nat, offset: nat, limit: nat, cap: nat)
    returns (result: Option<Counters>)
    requires offset >= 1
    ensures root.None? ==> result == None
    ensures root.Some? ==>
      var lines := Listing(Children(root.value), 0, depth);
      result == if exists i :: 0 <= i < Min(cap, |lines|) && lines[i].fails then None
                else
                  var window := RenderAll(WindowOf(lines, PageAt(offset, limit, cap)));
                  Some(Counters(window, Min(cap, |lines|), |lines| > cap))
  {
    var collector := new Collector(PageAt(offset, limit, cap), depth);
    var ok := collector.Walk(root, 0);
    if root.Some? {
      WindowIsSlice(PageAt(offset, limit, cap), Listing(Children(root.value), 0, depth));
    }
    return if ok then Some(collector.State()) else None;
  }
}
