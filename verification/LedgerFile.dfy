/** The ledger as a file of newline-terminated JSON texts: the repair of a torn tail and the two chunked
    backward scans (pycodex/core/rollout_recorder.py, session_store.py). */
module LedgerFile {
  import opened Prelude
  import opened JsonText

  /** The file that holds exactly these records. */
  function LedgerText(records: seq<bytes>): bytes {
    if records == [] then [] else records[0] + [LF] + LedgerText(records[1..])
  }

  /** What the recorder writes per record: one object, on one line. */
  ghost predicate IsRecord(r: bytes) { IsObjectText(r) && LF !in r && CR !in r }

  ghost predicate AllRecords(records: seq<bytes>) { forall i :: 0 <= i < |records| ==> IsRecord(records[i]) }

  /** `bytes.rfind` of one byte; -1 when absent. */
  function RFind(s: bytes, b: byte): int {
    if s == [] then -1 else if s[|s| - 1] == b then |s| - 1 else RFind(s[..|s| - 1], b)
  }

  /** One past the last newline, 0 if there is none. */
  function LineStart(s: bytes): nat {
    if s == [] then 0 else if s[|s| - 1] == LF then |s| else LineStart(s[..|s| - 1])
  }

  lemma {:induction false} RFindFinds(s: bytes, b: byte)
    ensures -1 <= RFind(s, b) < |s|
    ensures RFind(s, b) >= 0 ==> s[RFind(s, b)] == b
    ensures forall i :: RFind(s, b) < i < |s| ==> s[i] != b
  {
    if s != [] && s[|s| - 1] != b {
      RFindFinds(s[..|s| - 1], b);
    }
  }

  lemma {:induction false} LineStartIs(s: bytes, n: nat)
    requires n <= |s| && (n == 0 || s[n - 1] == LF) && forall i :: n <= i < |s| ==> s[i] != LF
    ensures LineStart(s) == n
  {
    if s != [] && s[|s| - 1] != LF {
      LineStartIs(s[..|s| - 1], n);
    }
  }

  lemma {:induction false} LineStartFinds(s: bytes)
    ensures LineStart(s) <= |s| && (LineStart(s) == 0 || s[LineStart(s) - 1] == LF)
    ensures forall i :: LineStart(s) <= i < |s| ==> s[i] != LF
  {
    if s != [] && s[|s| - 1] != LF {
      LineStartFinds(s[..|s| - 1]);
    }
  }

  /** `_last_newline_boundary`, for any chunk size. */
  method LastNewlineBoundary(file: bytes, chunkSize: nat) returns (boundary: nat)
    requires chunkSize > 0
    ensures boundary == LineStart(file)
  {
    var pos := |file|;
    while pos > 0
      invariant 0 <= pos <= |file|
      invariant forall i :: pos <= i < |file| ==> file[i] != LF
    {
      var readSize := Min(chunkSize, pos);
      pos := pos - readSize;
      var chunk := file[pos..pos + readSize];
      var offset := RFind(chunk, LF);
      RFindFinds(chunk, LF);
      assert forall i :: pos <= i < pos + readSize ==> file[i] == chunk[i - pos];
      if offset != -1 {
        assert file[pos + offset] == chunk[offset];
        LineStartIs(file, pos + offset + 1);
        return pos + offset + 1;
      }
    }
    LineStartIs(file, 0);
    return 0;
  }

  // ---------------------------------------------------------------------------------------
  // The last line.

  predicate EndOfLine(b: byte) { b == LF || b == CR }

  /** Length without trailing CR and LF bytes. */
  function Stripped(s: bytes): nat {
    if s != [] && EndOfLine(s[|s| - 1]) then Stripped(s[..|s| - 1]) else |s|
  }

  /** Where the last line that is not blank starts and ends. */
  function LastLine(file: bytes): Option<(nat, nat)> {
    var end := Stripped(file);
    if end == 0 then None else if end <= |file| then Some((LineStart(file[..end]), end)) else None
  }

  predicate CrOnlyBeforeLf(file: bytes) {
    forall i :: 0 <= i < |file| && file[i] == CR ==> i + 1 < |file| && file[i + 1] == LF
  }

  predicate NoCrInLastLine(file: bytes) {
    var line := LastLine(file);
    line.Some? && line.value.1 <= |file| ==> forall i :: line.value.0 <= i < line.value.1 ==> file[i] != CR
  }

  lemma {:induction false} StrippedFinds(s: bytes)
    ensures Stripped(s) <= |s| && (Stripped(s) > 0 ==> !EndOfLine(s[Stripped(s) - 1]))
    ensures forall i :: Stripped(s) <= i < |s| ==> EndOfLine(s[i])
  {
    if s != [] && EndOfLine(s[|s| - 1]) {
      StrippedFinds(s[..|s| - 1]);
    }
  }

  lemma {:induction false} StrippedIs(s: bytes, n: nat)
    requires n <= |s| && (n == 0 || !EndOfLine(s[n - 1])) && forall i :: n <= i < |s| ==> EndOfLine(s[i])
    ensures Stripped(s) == n
  {
    if s != [] && EndOfLine(s[|s| - 1]) {
      StrippedIs(s[..|s| - 1], n);
    }
  }

  /** Stripping a suffix of the file strips the file, unless nothing of the suffix is left. */
  lemma {:induction false} StrippedOfSuffix(file: bytes, pos: nat)
    requires pos <= |file|
    ensures if Stripped(file[pos..]) == 0 then Stripped(file) <= pos else Stripped(file) == pos + Stripped(file[pos..])
    decreases file
  {
    StrippedFinds(file);
    if pos < |file| && EndOfLine(file[|file| - 1]) {
      var init := file[..|file| - 1];
      assert file[pos..][..|file| - 1 - pos] == init[pos..];
      StrippedOfSuffix(init, pos);
    }
  }

  ghost predicate NoLineEnds(file: bytes, from: nat, to: nat) {
    to <= |file| && forall i :: from <= i < to ==> !EndOfLine(file[i])
  }

  lemma LastLineStarts(file: bytes, start: nat, end: nat)
    requires 0 < end == Stripped(file) && start <= end <= |file|
    requires (start == 0 || file[start - 1] == LF) && forall i :: start <= i < end ==> file[i] != LF
    ensures LastLine(file) == Some((start, end))
  {
    LineStartIs(file[..end], start);
  }

  /** A CR behind the last newline stands in the last line. */
  lemma CrInLastLine(file: bytes, at: nat, end: nat)
    requires at < end == Stripped(file) <= |file| && file[at] == CR
    requires forall i :: at <= i < end ==> file[i] != LF
    ensures LastLine(file).Some? && LastLine(file).value.0 <= at && !NoCrInLastLine(file)
  {
    LineStartFinds(file[..end]);
  }

  /** The search for the start of the line within the bytes read so far: a newline, else a lone CR. */
  method RFindLineStart(file: bytes, pos: nat, lineEnd: nat, buf: bytes) returns (nl: int)
    requires pos <= lineEnd <= |file| && buf == file[pos..]
    ensures -1 <= nl < lineEnd - pos
    ensures nl == -1 ==> NoLineEnds(file, pos, lineEnd)
    ensures nl != -1 ==>
      || (file[pos + nl] == LF && forall i :: pos + nl < i < lineEnd ==> file[i] != LF)
      || (file[pos + nl] == CR && forall i :: pos <= i < lineEnd ==> file[i] != LF)
  {
    var window := buf[..lineEnd - pos];
    assert forall i :: pos <= i < lineEnd ==> file[i] == window[i - pos];
    nl := RFind(window, LF);
    RFindFinds(window, LF);
    if nl != -1 {
      assert file[pos + nl] == LF;
      return;
    }
    nl := RFind(window, CR);
    RFindFinds(window, CR);
    assert nl != -1 ==> file[pos + nl] == CR;
  }

  /** The end of the line, once the bytes read so far hold more than line ends; -1 before. */
  method FindLineEnd(file: bytes, pos: nat, buf: bytes, known: int) returns (lineEnd: int)
    requires pos <= |file| && buf == file[pos..]
    requires known == -1 || known == Stripped(file) > pos
    ensures lineEnd == if Stripped(file) > pos then Stripped(file) else -1
  {
    StrippedOfSuffix(file, pos);
    if known != -1 { return known; }
    var stripped := Stripped(buf);
    return if stripped == 0 then -1 else pos + stripped;
  }

  lemma TailGrows(file: bytes, from: nat, pos: nat)
    requires from <= pos <= |file|
    ensures file[from..pos] + file[pos..] == file[from..]
  {}

  /** The scan of `read_session_closed`, for any chunk size: the buffer grows backwards; the end of the
      line is found first, then its start. It is the last line for every chunk size exactly when no CR
      stands in that line; reading single bytes stops at any CR. */
  method ScanLastLine(file: bytes, chunkSize: nat) returns (line: Option<(nat, nat)>)
    requires chunkSize > 0
    ensures NoCrInLastLine(file) ==> line == LastLine(file)
    ensures chunkSize == 1 && line == LastLine(file) ==> NoCrInLastLine(file)
  {
    StrippedFinds(file);
    ghost var end := Stripped(file);
    var buf: bytes := [];
    var pos: nat := |file|;
    var lineEnd := -1;
    while pos > 0
      invariant pos <= |file| && buf == file[pos..]
      invariant lineEnd == if end > pos then end else -1
      invariant NoLineEnds(file, pos, end)
    {
      ghost var before := pos;
      var readSize := Min(chunkSize, pos);
      TailGrows(file, pos - readSize, pos);
      buf := file[pos - readSize..pos] + buf;
      pos := pos - readSize;
      lineEnd := FindLineEnd(file, pos, buf, lineEnd);
      if lineEnd != -1 {
        var nl := RFindLineStart(file, pos, lineEnd, buf);
        if nl != -1 {
          StartFound(file, pos, before, pos + nl, lineEnd);
          return Some((pos + nl + 1, lineEnd));
        }
      }
    }
    if lineEnd == -1 { return None; }
    LastLineStarts(file, 0, lineEnd);
    return Some((0, lineEnd));
  }

  /** What the line is worth that starts behind the byte found at `at`. */
  lemma StartFound(file: bytes, pos: nat, before: nat, at: nat, end: nat)
    requires pos <= at < end == Stripped(file) <= |file| && NoLineEnds(file, before, end)
    requires
      || (file[at] == LF && forall i :: at < i < end ==> file[i] != LF)
      || (file[at] == CR && forall i :: pos <= i < end ==> file[i] != LF)
    ensures NoCrInLastLine(file) ==> Some((at + 1, end)) == LastLine(file)
    ensures before <= pos + 1 && Some((at + 1, end)) == LastLine(file) ==> NoCrInLastLine(file)
  {
    if file[at] == LF {
      LastLineStarts(file, at + 1, end);
    } else {
      CrInLastLine(file, at, end);
    }
  }

  lemma CrBeforeLfIsFine(file: bytes)
    requires CrOnlyBeforeLf(file)
    ensures NoCrInLastLine(file)
  {
    StrippedFinds(file);
    var end := Stripped(file);
    if end > 0 {
      LineStartFinds(file[..end]);
      forall i | LineStart(file[..end]) <= i < end
        ensures file[i] != CR
      {
        assert i + 1 < end ==> file[..end][i + 1] == file[i + 1] != LF;
      }
    }
  }

  // ---------------------------------------------------------------------------------------
  // Repair.

  /** `json.loads` applied to the stripped tail and found to be a dictionary: whatever it accepts is an
      object's text with no brace before it. */
  ghost predicate OnlyAcceptsObjects(isObject: bytes -> bool) {
    forall t {:trigger HoldsObject(t)} :: isObject(t) ==> HoldsObject(t)
  }

  ghost predicate HoldsObject(t: bytes) {
    exists i, j :: 0 <= i <= j <= |t| && IsObjectText(t[i..j]) && OPEN_OBJECT !in t[..i]
  }

  ghost predicate AcceptsAll(isObject: bytes -> bool, records: seq<bytes>) {
    forall i :: 0 <= i < |records| ==> isObject(records[i])
  }

  /** The file after `_guard_newline_boundary`. */
  function Repaired(file: bytes, isObject: bytes -> bool): bytes {
    if file == [] || file[|file| - 1] == LF then file
    else
      var boundary := LineStart(file);
      if boundary <= |file| && isObject(file[boundary..]) then file + [LF]
      else if boundary <= |file| then file[..boundary] else file
  }

  class StoredFile {
    var content: bytes

    constructor (content: bytes)
      ensures this.content == content
    {
      this.content := content;
    }

    method GuardNewlineBoundary(isObject: bytes -> bool)
      modifies this
      ensures content == Repaired(old(content), isObject)
    {
      if |content| == 0 { return; }
      if content[|content| - 1] == LF { return; }
      var boundary := LastNewlineBoundary(content, 4096);
      LineStartFinds(content);
      var tail := content[boundary..];
      if isObject(tail) {
        content := content + [LF];
        return;
      }
      content := content[..boundary];
    }
  }

  /** How many records have their whole JSON text among the first `n` bytes. */
  function Complete(records: seq<bytes>, n: nat): nat {
    if records == [] || n < |records[0]| then 0
    else 1 + if n == |records[0]| then 0 else Complete(records[1..], n - |records[0]| - 1)
  }

  lemma {:induction false} CompleteIsLongest(records: seq<bytes>, n: nat)
    requires forall i :: 0 <= i < |records| ==> records[i] != []
    ensures Complete(records, n) <= |records|
    ensures Complete(records, n) > 0 ==> |LedgerText(records[..Complete(records, n)])| <= n + 1
    ensures Complete(records, n) < |records| ==> n + 1 < |LedgerText(records[..Complete(records, n) + 1])|
  {
    var k := Complete(records, n);
    if records == [] {
    } else {
      if n > |records[0]| {
        CompleteIsLongest(records[1..], n - |records[0]| - 1);
        assert records[..k][1..] == records[1..][..k - 1];
        assert k < |records| ==> records[..k + 1][1..] == records[1..][..k];
      } else {
        assert records[..1][1..] == [] && records[..1][0] == records[0];
        assert |records| > 1 ==> records[..2][1..] == [records[1]] && LedgerText([records[1]]) == records[1] + [LF];
      }
    }
  }

  lemma HeadIn(r: bytes, i: nat)
    requires i <= |r|
    ensures i > 0 ==> r[0] in r[..i]
  {
    if i > 0 {
      assert r[..i][0] == r[0];
    }
  }

  lemma TornTailIsNoObject(r: bytes, n: nat, isObject: bytes -> bool)
    requires IsRecord(r) && 0 < n < |r| && OnlyAcceptsObjects(isObject)
    ensures !isObject(r[..n])
  {
    if isObject(r[..n]) {
      assert HoldsObject(r[..n]);
      var i, j :| 0 <= i <= j <= n && IsObjectText(r[..n][i..j]) && OPEN_OBJECT !in r[..n][..i];
      ObjectTextStarts(r);
      HeadIn(r, i);
      assert r[..n][..i] == r[..i];
      assert r[..n][0..j] == r[..j];
      NoObjectInsideAnother(r, j);
    }
  }

  /** Repair works on the last line only. */
  lemma {:induction false} RepairedAfterLine(head: bytes, tail: bytes, isObject: bytes -> bool)
    requires head != [] && head[|head| - 1] == LF
    ensures Repaired(head + tail, isObject) == head + Repaired(tail, isObject)
  {
    var file := head + tail;
    if tail == [] {
      assert file == head;
    } else if tail[|tail| - 1] != LF {
      var start := LineStart(tail);
      LineStartAfterLine(head, tail);
      assert file[|head| + start..] == tail[start..];
      assert file[..|head| + start] == head + tail[..start];
      assert file + [LF] == head + (tail + [LF]);
    }
  }

  lemma LineStartAfterLine(head: bytes, tail: bytes)
    requires head != [] && head[|head| - 1] == LF
    ensures LineStart(tail) <= |tail| && LineStart(head + tail) == |head| + LineStart(tail)
  {
    LineStartFinds(tail);
    var file := head + tail;
    assert forall i :: |head| <= i < |file| ==> file[i] == tail[i - |head|];
    LineStartIs(file, |head| + LineStart(tail));
  }

  /** The cut falls inside the first record, or right behind its JSON. */
  lemma RepairFirstRecord(r: bytes, n: nat, isObject: bytes -> bool)
    requires IsRecord(r) && isObject(r) && OnlyAcceptsObjects(isObject) && n <= |r|
    ensures Repaired(r[..n], isObject) == if n == |r| then r + [LF] else []
  {
    var file := r[..n];
    if n > 0 {
      assert forall i :: 0 <= i < n ==> file[i] == r[i] && r[i] in r;
      LineStartIs(file, 0);
      assert file[0..] == file;
      if n < |r| {
        TornTailIsNoObject(r, n, isObject);
      } else {
        assert file == r;
      }
    } else {
      ObjectTextStarts(r);
    }
  }

  lemma CutAfterFirst(records: seq<bytes>, n: nat)
    requires records != [] && |records[0]| < n <= |LedgerText(records)|
    ensures var m := n - |records[0]| - 1;
      && m <= |LedgerText(records[1..])|
      && LedgerText(records)[..n] == (records[0] + [LF]) + LedgerText(records[1..])[..m]
      && Complete(records, n) == 1 + Complete(records[1..], m)
  {
    var line := records[0] + [LF];
    assert LedgerText(records) == line + LedgerText(records[1..]);
  }

  lemma RepairLaterRecord(records: seq<bytes>, n: nat, isObject: bytes -> bool)
    requires records != [] && |records[0]| < n <= |LedgerText(records)|
    requires var rest, m := records[1..], n - |records[0]| - 1;
      && m <= |LedgerText(rest)| && Complete(rest, m) <= |rest|
      && Repaired(LedgerText(rest)[..m], isObject) == LedgerText(rest[..Complete(rest, m)])
    ensures Complete(records, n) <= |records|
    ensures Repaired(LedgerText(records)[..n], isObject) == LedgerText(records[..Complete(records, n)])
  {
    var m := n - |records[0]| - 1;
    CutAfterFirst(records, n);
    RepairedAfterLine(records[0] + [LF], LedgerText(records[1..])[..m], isObject);
    LedgerPrefixSnoc(records, Complete(records, n));
  }

  lemma RepairWithinFirst(records: seq<bytes>, n: nat, isObject: bytes -> bool)
    requires records != [] && n <= |records[0]| && IsRecord(records[0])
    requires isObject(records[0]) && OnlyAcceptsObjects(isObject)
    ensures n <= |LedgerText(records)|
    ensures Complete(records, n) <= |records|
    ensures Repaired(LedgerText(records)[..n], isObject) == LedgerText(records[..Complete(records, n)])
  {
    var r := records[0];
    assert LedgerText(records)[..n] == r[..n];
    RepairFirstRecord(r, n, isObject);
    assert records[..1] == [r] && LedgerText([r]) == r + [LF];
  }

  /** Crash repair: a ledger cut at any byte is repaired to the ledger of exactly the records whose JSON
      had been written completely, whether or not their newline had. */
  lemma {:induction false} RepairKeepsCompleteRecords(records: seq<bytes>, n: nat, isObject: bytes -> bool)
    requires AllRecords(records) && AcceptsAll(isObject, records) && OnlyAcceptsObjects(isObject)
    requires n <= |LedgerText(records)|
    ensures Complete(records, n) <= |records|
    ensures Repaired(LedgerText(records)[..n], isObject) == LedgerText(records[..Complete(records, n)])
  {
    if records == [] {
      assert LedgerText(records)[..n] == [];
    } else if n <= |records[0]| {
      assert IsRecord(records[0]) && isObject(records[0]);
      RepairWithinFirst(records, n, isObject);
    } else {
      CutAfterFirst(records, n);
      RepairKeepsCompleteRecords(records[1..], n - |records[0]| - 1, isObject);
      RepairLaterRecord(records, n, isObject);
    }
  }

  lemma LedgerPrefixSnoc(records: seq<bytes>, k: nat)
    requires 0 < k <= |records|
    ensures LedgerText(records[..k]) == records[0] + [LF] + LedgerText(records[1..][..k - 1])
  {
    assert records[..k][1..] == records[1..][..k - 1];
  }

  lemma {:induction false} LedgerConcat(a: seq<bytes>, b: seq<bytes>)
    ensures LedgerText(a + b) == LedgerText(a) + LedgerText(b)
    decreases a
  {
    if a == [] {
      assert a + b == b;
    } else {
      assert (a + b)[1..] == a[1..] + b;
      LedgerConcat(a[1..], b);
    }
  }

  /** The repaired file is well formed: appending records to it gives their ledger again. */
  lemma AppendAfterRepair(records: seq<bytes>, n: nat, more: seq<bytes>, isObject: bytes -> bool)
    requires AllRecords(records) && AcceptsAll(isObject, records) && OnlyAcceptsObjects(isObject)
    requires n <= |LedgerText(records)|
    ensures Complete(records, n) <= |records|
    ensures Repaired(LedgerText(records)[..n], isObject) + LedgerText(more)
         == LedgerText(records[..Complete(records, n)] + more)
  {
    RepairKeepsCompleteRecords(records, n, isObject);
    LedgerConcat(records[..Complete(records, n)], more);
  }

  lemma {:induction false} NoCarriageReturns(records: seq<bytes>)
    requires AllRecords(records)
    ensures CR !in LedgerText(records)
  {
    if records == [] {
    } else {
      assert IsRecord(records[0]);
      NoCarriageReturns(records[1..]);
    }
  }

  lemma {:induction false} LedgerEndsLine(records: seq<bytes>)
    ensures records != [] ==> LedgerText(records) != [] && LedgerText(records)[|LedgerText(records)| - 1] == LF
  {
    if records == [] {
    } else {
      LedgerEndsLine(records[1..]);
    }
  }

  /** The last of several lines, when it holds no end-of-line byte itself. */
  lemma LastLineOf(head: bytes, last: bytes)
    requires (head == [] || head[|head| - 1] == LF) && last != [] && LF !in last && CR !in last
    ensures LastLine(head + last + [LF]) == Some((|head|, |head| + |last|))
  {
    var file, end := head + last + [LF], |head| + |last|;
    assert file[end - 1] == last[|last| - 1] && last[|last| - 1] in last;
    StrippedIs(file, end);
    assert file[..end] == head + last;
    assert forall i :: |head| <= i < end ==> file[i] == last[i - |head|] && last[i - |head|] in last;
    LineStartIs(file[..end], |head|);
  }

  lemma Middle(a: bytes, b: bytes, c: bytes)
    ensures (a + b + c)[|a|..|a| + |b|] == b
  {}

  /** On a ledger, the last line found is the last record. */
  lemma LastLineIsLastRecord(records: seq<bytes>)
    requires AllRecords(records) && records != []
    ensures NoCrInLastLine(LedgerText(records))
    ensures var start := |LedgerText(records[..|records| - 1])|;
      var end := start + |records[|records| - 1]|;
      && LastLine(LedgerText(records)) == Some((start, end))
      && end <= |LedgerText(records)| && LedgerText(records)[start..end] == records[|records| - 1]
  {
    var before, last := records[..|records| - 1], records[|records| - 1];
    var head := LedgerText(before);
    assert LedgerText(records) == head + last + [LF] by {
      LedgerConcat(before, [last]);
      assert records == before + [last] && LedgerText([last]) == last + [LF];
    }
    NoCarriageReturns(records);
    CrBeforeLfIsFine(LedgerText(records));
    assert IsRecord(last);
    ObjectTextStarts(last);
    LedgerEndsLine(before);
    LastLineOf(head, last);
    Middle(head, last, [LF]);
  }
}
