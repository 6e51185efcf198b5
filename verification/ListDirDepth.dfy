/** Which entries a listing holds (pycodex/tools/list_dir.py). */
module ListDirDepth {
  import opened Prelude
  import opened ListDir

  /** A way down from a directory: each entry stands in the readable directory before it. */
  predicate IsPath(entries: seq<Entry>, path: seq<Entry>)
    decreases |path|
  {
    && path != [] && path[0] in entries
    && (|path| > 1 ==>
          && path[0].node.Directory? && path[0].node.entries.Some?
          && IsPath(path[0].node.entries.value, path[1..]))
  }

  /** The line of the entry a path ends at: indented by the directories on the way, and failing if it is
      an unreadable directory less than `levels` entries down. */
  predicate LineOfPath(line: Line, path: seq<Entry>, level: nat, levels: nat)
    requires path != []
  {
    var entry := path[|path| - 1];
    && line.level == level + |path| - 1
    && line.text == TruncateEntry(entry.name + Marker(entry.node))
    && (line.fails <==> entry.node == Directory(None) && |path| < levels)
  }

  lemma LineOfPathIsUnique(line: Line, other: Line, path: seq<Entry>, level: nat, levels: nat)
    requires path != [] && LineOfPath(line, path, level, levels) && LineOfPath(other, path, level, levels)
    ensures line == other
  {}

  lemma LineOfIsLineOfPath(entry: Entry, level: nat, depth: nat)
    requires level < depth
    ensures LineOfPath(LineOf(entry, level, depth), [entry], level, depth - level)
  {}

  lemma LongerPath(entry: Entry, path: seq<Entry>, siblings: seq<Entry>, line: Line, level: nat, levels: nat)
    requires entry in siblings && entry.node.Directory? && entry.node.entries.Some? && levels > 0
    requires IsPath(entry.node.entries.value, path) && LineOfPath(line, path, level + 1, levels - 1)
    ensures IsPath(siblings, [entry] + path) && LineOfPath(line, [entry] + path, level, levels)
  {
    assert ([entry] + path)[1..] == path;
  }

  lemma ChildrenAreSame(entries: seq<Entry>, entry: Entry)
    ensures entry in Children(entries) <==> entry in entries
  {
    ChildrenAreSorted(entries);
    assert entry in multiset(entries) <==> entry in entries;
    assert entry in multiset(Children(entries)) <==> entry in Children(entries);
  }

  lemma ChildrenHaveSamePaths(entries: seq<Entry>, path: seq<Entry>)
    ensures IsPath(Children(entries), path) <==> IsPath(entries, path)
  {
    if path != [] {
      ChildrenAreSame(entries, path[0]);
    }
  }

  /** Every line stands for an entry within the depth. */
  lemma {:induction false} LineHasPath(siblings: seq<Entry>, level: nat, depth: nat, line: Line)
      returns (path: seq<Entry>)
    requires level < depth && line in Listing(siblings, level, depth)
    ensures IsPath(siblings, path) && |path| <= depth - level && LineOfPath(line, path, level, depth - level)
    decreases depth - level, |siblings|
  {
    var first := siblings[0];
    if line == LineOf(first, level, depth) {
      path := [first];
      LineOfIsLineOfPath(first, level, depth);
    } else if line in Below(first, level, depth) {
      var inside := first.node.entries.value;
      var rest := LineHasPath(Children(inside), level + 1, depth, line);
      ChildrenHaveSamePaths(inside, rest);
      LongerPath(first, rest, siblings, line, level, depth - level);
      path := [first] + rest;
    } else {
      path := LineHasPath(siblings[1..], level, depth, line);
    }
  }

  /** Every entry within the depth has its line. */
  lemma {:induction false} PathHasLine(siblings: seq<Entry>, level: nat, depth: nat, path: seq<Entry>)
      returns (line: Line)
    requires IsPath(siblings, path) && |path| <= depth - level
    ensures line in Listing(siblings, level, depth) && LineOfPath(line, path, level, depth - level)
    decreases |path|, |siblings|
  {
    var first := siblings[0];
    if path[0] != first {
      line := PathHasLine(siblings[1..], level, depth, path);
    } else if |path| == 1 {
      line := LineOf(first, level, depth);
      LineOfIsLineOfPath(first, level, depth);
      assert path == [first];
    } else {
      var inside := first.node.entries.value;
      ChildrenHaveSamePaths(inside, path[1..]);
      line := PathHasLine(Children(inside), level + 1, depth, path[1..]);
      assert line in Below(first, level, depth);
      assert path == [first] + path[1..];
      LongerPath(first, path[1..], siblings, line, level, depth - level);
    }
  }

  /** Listed are exactly the entries at most `depth` steps down, links and unreadable directories included
      but not entered. Only an unreadable directory that would have to be entered fails. */
  lemma ListedIffWithinDepth(entries: seq<Entry>, depth: nat, line: Line)
    requires depth >= 1
    ensures line in Listing(Children(entries), 0, depth) <==>
      exists path :: IsPath(entries, path) && |path| <= depth && LineOfPath(line, path, 0, depth)
  {
    if line in Listing(Children(entries), 0, depth) {
      var path := LineHasPath(Children(entries), 0, depth, line);
      ChildrenHaveSamePaths(entries, path);
    }
    if path :| IsPath(entries, path) && |path| <= depth && LineOfPath(line, path, 0, depth) {
      ChildrenHaveSamePaths(entries, path);
      var found := PathHasLine(Children(entries), 0, depth, path);
      LineOfPathIsUnique(line, found, path, 0, depth);
    }
  }

  lemma {:induction false} IndentIs(level: nat)
    ensures |Indent(level)| == 2 * level && forall c :: c in Indent(level) ==> c == ' '
  {
    if level > 0 {
      IndentIs(level - 1);
    }
  }

  /** How a line looks: two spaces for each step down, then the name with `@` for a link or `/` for a
      directory, cut behind 500 characters with a note. */
  lemma LineLooksLike(entry: Entry, level: nat, depth: nat)
    ensures var shown := Rendered(LineOf(entry, level, depth));
      var full := entry.name + (if entry.node.Symlink? then "@" else if entry.node.Directory? then "/" else "");
      && |shown| >= 2 * level && (forall c :: c in shown[..2 * level] ==> c == ' ')
      && shown[2 * level..] == if |full| <= 500 then full else full[..500] + "...[truncated]"
  {
    IndentIs(level);
    assert Rendered(LineOf(entry, level, depth))[..2 * level] == Indent(level);
  }
}
