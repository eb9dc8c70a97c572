// Edit scripts (internal/delta/patch.go): a byte-coded script of equal, insert
// and delete runs that turns a pattern into the original chunk.
module Patch {
  import opened Common

  const OP_EQUAL: byte := 0
  const OP_INSERT: byte := 1
  const OP_DELETE: byte := 2

  // ----- what a list of operations means ------------------------------------

  // The operations turn p into o: each equal copies one byte of p, each insert
  // takes the next byte of data, each delete skips one byte of p, and all of p
  // and data is used.
  ghost predicate Aligns(ops: Bytes, data: Bytes, p: Bytes, o: Bytes) {
    if ops == [] then data == [] && p == [] && o == []
    else if ops[0] == OP_EQUAL then
      p != [] && o != [] && p[0] == o[0] && Aligns(ops[1..], data, p[1..], o[1..])
    else if ops[0] == OP_INSERT then
      data != [] && o != [] && data[0] == o[0] && Aligns(ops[1..], data[1..], p, o[1..])
    else
      ops[0] == OP_DELETE && p != [] && Aligns(ops[1..], data, p[1..], o)
  }

  // Inserted plus deleted bytes.
  ghost function Cost(ops: Bytes): nat {
    if ops == [] then 0 else (if ops[0] == OP_EQUAL then 0 else 1) + Cost(ops[1..])
  }

  // The least cost of turning p[..j] into o[..i], by the textbook recurrence.
  ghost function Distance(o: Bytes, p: Bytes, i: nat, j: nat): nat
    requires i <= |o| && j <= |p|
  {
    if i == 0 then j
    else if j == 0 then i
    else if o[i - 1] == p[j - 1] then Distance(o, p, i - 1, j - 1)
    else 1 + Min(Distance(o, p, i - 1, j), Distance(o, p, i, j - 1))
  }

  // Neighbouring cells of the table differ by exactly one. This is why the
  // substitution branch of the table never improves on insert or delete.
  lemma {:induction false} Neighbours(o: Bytes, p: Bytes, i: nat, j: nat)
    requires i <= |o| && j <= |p|
    ensures i > 0 ==> Distance(o, p, i, j) - Distance(o, p, i - 1, j) in {-1, 1}
    ensures j > 0 ==> Distance(o, p, i, j) - Distance(o, p, i, j - 1) in {-1, 1}
  {
    if i > 0 && j > 0 {
      Neighbours(o, p, i - 1, j);
      Neighbours(o, p, i, j - 1);
    }
  }

  // No operations that turn p into o are cheaper than the table's last cell.
  lemma {:induction false} DistanceIsLeast(ops: Bytes, data: Bytes, p: Bytes, o: Bytes, i: nat, j: nat)
    requires i <= |o| && j <= |p|
    requires Aligns(ops, data, p[j..], o[i..])
    ensures Distance(o, p, |o|, |p|) <= Distance(o, p, i, j) + Cost(ops)
  {
    if ops != [] {
      if ops[0] == OP_EQUAL {
        DistanceIsLeast(ops[1..], data, p, o, i + 1, j + 1);
      } else if ops[0] == OP_INSERT {
        Neighbours(o, p, i + 1, j);
        DistanceIsLeast(ops[1..], data[1..], p, o, i + 1, j);
      } else {
        Neighbours(o, p, i, j + 1);
        DistanceIsLeast(ops[1..], data, p, o, i, j + 1);
      }
    }
  }

  // ----- what a script means ------------------------------------------------

  function Repeat(op: byte, n: nat): (r: Bytes)
    ensures |r| == n && forall k :: 0 <= k < n ==> r[k] == op
  {
    seq(n, _ => op)
  }

  datatype Edits = Edits(ops: Bytes, data: Bytes)

  // Bytes taken by the first run of a script.
  function RunLength(script: Bytes): nat
    requires |script| >= 2
  {
    if script[0] == OP_INSERT then 2 + script[1] as nat else 2
  }

  // One run in front of the operations that follow it.
  function Prepend(op: byte, count: nat, inserted: Bytes, rest: Edits): Edits {
    if op > OP_DELETE then rest else Edits(Repeat(op, count) + rest.ops, inserted + rest.data)
  }

  // The operations a script stands for. Opcodes above OP_DELETE do nothing; a
  // script cut in the middle of a run means nothing.
  ghost function Expand(script: Bytes): Option<Edits> {
    if script == [] then Some(Edits([], []))
    else if |script| == 1 || RunLength(script) > |script| then None
    else
      var used := RunLength(script);
      match Expand(script[used..])
      case None => None
      case Some(rest) => Some(Prepend(script[0], script[1], script[2..used], rest))
  }

  ghost function Join(a: Edits, b: Edits): Edits {
    Edits(a.ops + b.ops, a.data + b.data)
  }

  lemma PrependJoin(op: byte, count: nat, inserted: Bytes, a: Edits, b: Edits)
    ensures Join(Prepend(op, count, inserted, a), b) == Prepend(op, count, inserted, Join(a, b))
  {
    if op <= OP_DELETE {
      assert (Repeat(op, count) + a.ops) + b.ops == Repeat(op, count) + (a.ops + b.ops);
      assert (inserted + a.data) + b.data == inserted + (a.data + b.data);
    }
  }

  lemma ExpandTail(script: Bytes)
    requires script != [] && Expand(script).Some?
    ensures |script| >= 2 && RunLength(script) <= |script| && Expand(script[RunLength(script)..]).Some?
  {
  }

  lemma ExpandHead(script: Bytes, used: nat)
    requires |script| >= 2 && used == RunLength(script) <= |script| && Expand(script[used..]).Some?
    ensures Expand(script) == Some(Prepend(script[0], script[1], script[2..used], Expand(script[used..]).value))
  {
  }

  // The first run of a script is the same with more behind the script.
  lemma FirstRunStays(script: Bytes, run: Bytes)
    requires |script| >= 2 && RunLength(script) <= |script|
    ensures (script + run)[0] == script[0] && (script + run)[1] == script[1] && RunLength(script + run) == RunLength(script)
    ensures 2 <= RunLength(script) && (script + run)[2..RunLength(script)] == script[2..RunLength(script)]
    ensures (script + run)[RunLength(script)..] == script[RunLength(script)..] + run
  {
  }

  lemma JoinNone(run: Bytes)
    requires Expand(run).Some?
    ensures Expand([] + run) == Some(Join(Expand([]).value, Expand(run).value))
  {
    assert [] + run == run && [] + Expand(run).value.ops == Expand(run).value.ops && [] + Expand(run).value.data == Expand(run).value.data;
  }

  lemma {:induction false} ExpandAppend(script: Bytes, run: Bytes)
    requires Expand(script).Some? && Expand(run).Some?
    ensures Expand(script + run) == Some(Join(Expand(script).value, Expand(run).value))
  {
    hide *;
    if script == [] {
      JoinNone(run);
    } else {
      ExpandTail(script);
      var used := RunLength(script);
      FirstRunStays(script, run);
      ExpandAppend(script[used..], run);
      ExpandHead(script, used);
      ExpandHead(script + run, used);
      PrependJoin(script[0], script[1], script[2..used], Expand(script[used..]).value, Expand(run).value);
    }
  }

  function Run(op: byte, count: byte, inserted: Bytes): Bytes {
    [op, count] + inserted
  }

  // A script of a single run.
  lemma ExpandRun(op: byte, count: byte, inserted: Bytes)
    requires op <= OP_DELETE
    requires |inserted| == if op == OP_INSERT then count else 0
    ensures Expand(Run(op, count, inserted)) == Some(Edits(Repeat(op, count), inserted))
  {
    var run := Run(op, count, inserted);
    var used := RunLength(run);
    assert run[used..] == [] && run[2..used] == inserted;
    assert Expand(run[used..]) == Some(Edits([], []));
    assert Repeat(op, count) + [] == Repeat(op, count) && inserted + [] == inserted;
  }

  lemma AlignsHead(ops: Bytes, data: Bytes, p: Bytes, o: Bytes)
    requires ops != [] && Aligns(ops, data, p, o)
    ensures ops[0] == OP_EQUAL ==> p != [] && o != [] && p[0] == o[0] && Aligns(ops[1..], data, p[1..], o[1..])
    ensures ops[0] == OP_INSERT ==> data != [] && o != [] && data[0] == o[0] && Aligns(ops[1..], data[1..], p, o[1..])
    ensures ops[0] == OP_DELETE ==> p != [] && Aligns(ops[1..], data, p[1..], o)
  {
  }

  // A run of equal operations at the front of an alignment, taken in one go.
  lemma {:induction false} AlignRun(op: byte, n: nat, ops: Bytes, data: Bytes, p: Bytes, o: Bytes)
    requires op <= OP_DELETE
    requires Aligns(Repeat(op, n) + ops, data, p, o)
    ensures op == OP_EQUAL ==> n <= |p| && n <= |o| && p[..n] == o[..n] && Aligns(ops, data, p[n..], o[n..])
    ensures op == OP_INSERT ==> n <= |data| && n <= |o| && data[..n] == o[..n] && Aligns(ops, data[n..], p, o[n..])
    ensures op == OP_DELETE ==> n <= |p| && Aligns(ops, data, p[n..], o)
  {
    if n == 0 {
      assert Repeat(op, 0) + ops == ops;
      assert p[0..] == p && o[0..] == o && data[0..] == data;
    } else {
      assert (Repeat(op, n) + ops)[1..] == Repeat(op, n - 1) + ops;
      AlignsHead(Repeat(op, n) + ops, data, p, o);
      hide Aligns, Repeat;
      if op == OP_EQUAL {
        AlignRun(op, n - 1, ops, data, p[1..], o[1..]);
        assert p[1..][n - 1..] == p[n..] && o[1..][n - 1..] == o[n..];
        assert p[..n] == [p[0]] + p[1..][..n - 1] && o[..n] == [o[0]] + o[1..][..n - 1];
      } else if op == OP_INSERT {
        AlignRun(op, n - 1, ops, data[1..], p, o[1..]);
        assert data[1..][n - 1..] == data[n..] && o[1..][n - 1..] == o[n..];
        assert data[..n] == [data[0]] + data[1..][..n - 1] && o[..n] == [o[0]] + o[1..][..n - 1];
      } else {
        AlignRun(op, n - 1, ops, data, p[1..], o);
        assert p[1..][n - 1..] == p[n..];
      }
    }
  }

  // ----- applying a script --------------------------------------------------

  // The outcome of running the rest of a script from position at of the pattern.
  // A script cut in the middle of a run has no outcome in the original (its
  // index expression panics), which is the BadScript error here.
  function Applied(pattern: Bytes, at: nat, script: Bytes): Result<Bytes>
    decreases |script|
  {
    if script == [] then Ok([])
    else if |script| == 1 then Err(BadScript)
    else
      var count: nat := script[1];
      if script[0] == OP_EQUAL then
        if at + count > |pattern| then Err(BadBounds)
        else
          After(pattern[at..at + count], Applied(pattern, at + count, script[2..]))
      else if script[0] == OP_INSERT then
        if 2 + count > |script| then Err(BadScript)
        else
          After(script[2..2 + count], Applied(pattern, at, script[2 + count..]))
      else if script[0] == OP_DELETE then Applied(pattern, at + count, script[2..])
      else Applied(pattern, at, script[2..])
  }

  // What has been written, followed by what is still to come.
  function After(done: Bytes, rest: Result<Bytes>): Result<Bytes> {
    if rest.Ok? then Ok(done + rest.value) else rest
  }

  // The invariant of the loop of ApplyPatch: done is the outcome so far.
  ghost predicate Applying(pattern: Bytes, script: Bytes, at: nat, i: nat, done: Bytes) {
    i <= |script| && After(done, Applied(pattern, at, script[i..])) == Applied(pattern, 0, script)
  }

  lemma ApplyEqual(pattern: Bytes, script: Bytes, at: nat, i: nat, done: Bytes)
    requires Applying(pattern, script, at, i, done) && i + 1 < |script| && script[i] == OP_EQUAL
    ensures var end: nat := at + script[i + 1];
            if end > |pattern| then Applied(pattern, 0, script) == Err(BadBounds)
            else Applying(pattern, script, end, i + 2, done + pattern[at..end])
  {
    var end: nat := at + script[i + 1];
    assert script[i..][2..] == script[i + 2..];
    if end <= |pattern| {
      AfterAfter(done, pattern[at..end], Applied(pattern, end, script[i + 2..]));
    }
  }

  lemma ApplyInsert(pattern: Bytes, script: Bytes, at: nat, i: nat, done: Bytes)
    requires Applying(pattern, script, at, i, done) && i + 1 < |script| && script[i] == OP_INSERT
    ensures var end: nat := i + 2 + script[i + 1];
            if end > |script| then Applied(pattern, 0, script) == Err(BadScript)
            else Applying(pattern, script, at, end, done + script[i + 2..end])
  {
    var end: nat := i + 2 + script[i + 1];
    if end <= |script| {
      assert script[i..][2..2 + script[i + 1] as nat] == script[i + 2..end];
      assert script[i..][2 + script[i + 1] as nat..] == script[end..];
      AfterAfter(done, script[i + 2..end], Applied(pattern, at, script[end..]));
    }
  }

  lemma ApplyOther(pattern: Bytes, script: Bytes, at: nat, i: nat, done: Bytes)
    requires Applying(pattern, script, at, i, done) && i + 1 < |script|
    requires script[i] != OP_EQUAL && script[i] != OP_INSERT
    ensures Applying(pattern, script, if script[i] == OP_DELETE then at + script[i + 1] as nat else at, i + 2, done)
  {
    assert script[i..][2..] == script[i + 2..];
  }

  lemma ApplyEnds(pattern: Bytes, script: Bytes, at: nat, i: nat, done: Bytes)
    requires Applying(pattern, script, at, i, done) && |script| <= i + 1
    ensures Applied(pattern, 0, script) == if i == |script| then Ok(done) else Err(BadScript)
  {
    assert done + [] == done;
  }

  lemma AfterAfter(done: Bytes, more: Bytes, rest: Result<Bytes>)
    ensures After(done, After(more, rest)) == After(done + more, rest)
  {
    if rest.Ok? { assert done + (more + rest.value) == done + more + rest.value; }
  }

  lemma ApplyStarts(pattern: Bytes, script: Bytes)
    ensures Applying(pattern, script, 0, 0, [])
  {
    assert script[0..] == script;
    var rest := Applied(pattern, 0, script);
    if rest.Ok? { assert [] + rest.value == rest.value; }
  }

  method ApplyPatch(pattern: Bytes, script: Bytes) returns (r: Result<Bytes>)
    ensures r == Applied(pattern, 0, script)
  {
    hide *;
    var original := [];
    var patIdx: nat, scrIdx: nat := 0, 0;
    ApplyStarts(pattern, script);
    while scrIdx < |script|
      invariant 0 <= scrIdx <= |script|
      invariant Applying(pattern, script, patIdx, scrIdx, original)
    {
      if scrIdx + 1 >= |script| {
        ApplyEnds(pattern, script, patIdx, scrIdx, original);
        return Err(BadScript);
      }
      var op, count: nat := script[scrIdx], script[scrIdx + 1];
      if op == OP_EQUAL {
        ApplyEqual(pattern, script, patIdx, scrIdx, original);
        var end := patIdx + count;
        if end > |pattern| {
          return Err(BadBounds);
        }
        original := original + pattern[patIdx..end];
        patIdx := patIdx + count;
        scrIdx := scrIdx + 2;
      } else if op == OP_INSERT {
        ApplyInsert(pattern, script, patIdx, scrIdx, original);
        scrIdx := scrIdx + 2;
        if scrIdx + count > |script| {
          return Err(BadScript);
        }
        original := original + script[scrIdx..scrIdx + count];
        scrIdx := scrIdx + count;
      } else {
        ApplyOther(pattern, script, patIdx, scrIdx, original);
        scrIdx := scrIdx + 2;
        if op == OP_DELETE {
          patIdx := patIdx + count;
        }
      }
    }
    ApplyEnds(pattern, script, patIdx, scrIdx, original);
    return Ok(original);
  }

  // Applying one run and then the rest.
  lemma AppliedRun(pattern: Bytes, at: nat, script: Bytes, tail: Bytes)
    requires |script| >= 2 && RunLength(script) <= |script|
    ensures var op, count: nat, rest := script[0], script[1], script[RunLength(script)..];
            && (op == OP_EQUAL && at + count <= |pattern| && Applied(pattern, at + count, rest) == Ok(tail) ==>
                  Applied(pattern, at, script) == Ok(pattern[at..at + count] + tail))
            && (op == OP_INSERT && Applied(pattern, at, rest) == Ok(tail) ==>
                  Applied(pattern, at, script) == Ok(script[2..2 + count] + tail))
            && (op == OP_DELETE && Applied(pattern, at + count, rest) == Ok(tail) ==>
                  Applied(pattern, at, script) == Ok(tail))
            && (op > OP_DELETE && Applied(pattern, at, rest) == Ok(tail) ==>
                  Applied(pattern, at, script) == Ok(tail))
  {
  }

  // The parts of a script that begins with a run.
  lemma RunParts(script: Bytes)
    requires script != [] && Expand(script).Some?
    ensures |script| >= 2 && RunLength(script) <= |script| && Expand(script[RunLength(script)..]).Some?
    ensures RunLength(script) == if script[0] == OP_INSERT then 2 + script[1] as nat else 2
    ensures var e, rest := Expand(script).value, Expand(script[RunLength(script)..]).value;
            if script[0] > OP_DELETE then e == rest
            else e.ops == Repeat(script[0], script[1]) + rest.ops && e.data == script[2..RunLength(script)] + rest.data
  {
    hide Repeat;
  }

  // What a run does to the strings that are aligned.
  lemma AlignedStep(pattern: Bytes, at: nat, op: byte, count: nat, inserted: Bytes, ops: Bytes, data: Bytes, o: Bytes)
    requires at <= |pattern| && op <= OP_DELETE && |inserted| == if op == OP_INSERT then count else 0
    requires Aligns(Repeat(op, count) + ops, inserted + data, pattern[at..], o)
    ensures op != OP_INSERT ==> at + count <= |pattern|
    ensures op != OP_DELETE ==> count <= |o|
    ensures var at', o' := if op == OP_INSERT then at else at + count, if op == OP_DELETE then o else o[count..];
            && Aligns(ops, data, pattern[at'..], o')
            && o == (if op == OP_EQUAL then pattern[at..at + count] else inserted) + o'
  {
    hide Aligns, Repeat;
    AlignRun(op, count, ops, inserted + data, pattern[at..], o);
    if op == OP_INSERT {
      assert (inserted + data)[..count] == inserted && (inserted + data)[count..] == data;
    } else {
      assert inserted + data == data && pattern[at..][count..] == pattern[at + count..];
      assert pattern[at..][..count] == pattern[at..at + count];
    }
  }

  // A script whose operations turn pattern[at..] into o is applied to give o.
  lemma {:induction false} AppliedAligned(pattern: Bytes, at: nat, script: Bytes, e: Edits, o: Bytes)
    requires at <= |pattern|
    requires Expand(script) == Some(e)
    requires Aligns(e.ops, e.data, pattern[at..], o)
    ensures Applied(pattern, at, script) == Ok(o)
    decreases |script|
  {
    if script != [] {
      hide Aligns, Applied, Expand, RunLength, Repeat;
      RunParts(script);
      var op, count: nat, used := script[0], script[1], RunLength(script);
      var rest := Expand(script[used..]).value;
      if op > OP_DELETE {
        AppliedAligned(pattern, at, script[used..], rest, o);
        AppliedRun(pattern, at, script, o);
      } else {
        AlignedStep(pattern, at, op, count, script[2..used], rest.ops, rest.data, o);
        var at', o' := if op == OP_INSERT then at else at + count, if op == OP_DELETE then o else o[count..];
        AppliedAligned(pattern, at', script[used..], rest, o');
        AppliedRun(pattern, at, script, o');
      }
    }
  }

  // ----- computing a script -------------------------------------------------

  ghost function Reverse(s: Bytes): (r: Bytes)
    ensures |r| == |s| && forall k :: 0 <= k < |s| ==> r[k] == s[|s| - 1 - k]
  {
    seq(|s|, k requires 0 <= k < |s| => s[|s| - 1 - k])
  }

  lemma ReversePush(s: Bytes, x: byte)
    ensures Reverse(s + [x]) == [x] + Reverse(s)
  {
  }

  lemma Borders(o: Bytes, p: Bytes)
    ensures forall i :: 0 <= i <= |o| ==> Distance(o, p, i, 0) == i
    ensures forall j :: 0 <= j <= |p| ==> Distance(o, p, 0, j) == j
  {
  }

  // The dynamic programming table.
  method Table(original: Bytes, pattern: Bytes) returns (dp: array2<int>)
    ensures fresh(dp) && dp.Length0 == |original| + 1 && dp.Length1 == |pattern| + 1
    ensures forall i, j :: 0 <= i <= |original| && 0 <= j <= |pattern| ==>
              dp[i, j] == Distance(original, pattern, i, j)
  {
    hide *;
    var lenO, lenP := |original|, |pattern|;
    dp := new int[lenO + 1, lenP + 1];
    for i := 0 to lenO + 1
      invariant forall a :: 0 <= a < i ==> dp[a, 0] == a
    {
      dp[i, 0] := i;
    }
    for j := 0 to lenP + 1
      invariant forall a :: 0 <= a <= lenO ==> dp[a, 0] == a
      invariant forall b :: 0 <= b < j ==> dp[0, b] == b
    {
      dp[0, j] := j;
    }
    Borders(original, pattern);
    for i := 1 to lenO + 1
      invariant forall a :: 0 <= a <= lenO ==> dp[a, 0] == a
      invariant forall a, b :: 0 <= a < i && 0 <= b <= lenP ==> dp[a, b] == Distance(original, pattern, a, b)
    {
      Borders(original, pattern);
      for j := 1 to lenP + 1
        invariant forall a :: 0 <= a <= lenO ==> dp[a, 0] == a
        invariant forall a, b :: 0 <= a < i && 0 <= b <= lenP ==> dp[a, b] == Distance(original, pattern, a, b)
        invariant forall b :: 0 <= b < j ==> dp[i, b] == Distance(original, pattern, i, b)
      {
        var cell := TableCell(original, pattern, i, j, dp[i - 1, j - 1], dp[i - 1, j], dp[i, j - 1]);
        dp[i, j] := cell;
      }
    }
  }

  // One cell from its three neighbours, with the source's substitution branch.
  method TableCell(original: Bytes, pattern: Bytes, i: nat, j: nat, diagonal: int, above: int, left: int)
    returns (m: int)
    requires 1 <= i <= |original| && 1 <= j <= |pattern|
    requires diagonal == Distance(original, pattern, i - 1, j - 1)
    requires above == Distance(original, pattern, i - 1, j)
    requires left == Distance(original, pattern, i, j - 1)
    ensures m == Distance(original, pattern, i, j)
  {
    Neighbours(original, pattern, i - 1, j);
    Neighbours(original, pattern, i, j - 1);
    if original[i - 1] == pattern[j - 1] {
      m := diagonal;
    } else {
      m := above + 1;
      if left + 1 < m {
        m := left + 1;
      }
      if diagonal + 1 < m {
        m := diagonal + 2;
      }
    }
  }

  // The invariant of the backtracking loop: the operations found so far, which
  // come out in reverse, turn the rest of p into the rest of o and cost what the
  // table says.
  ghost predicate Backtracked(o: Bytes, p: Bytes, i: nat, j: nat, ops: Bytes, data: Bytes) {
    && i <= |o| && j <= |p|
    && Aligns(Reverse(ops), Reverse(data), p[j..], o[i..])
    && Cost(Reverse(ops)) + Distance(o, p, i, j) == Distance(o, p, |o|, |p|)
  }

  lemma BackEqual(o: Bytes, p: Bytes, i: nat, j: nat, ops: Bytes, data: Bytes)
    requires Backtracked(o, p, i, j, ops, data) && i > 0 && j > 0 && o[i - 1] == p[j - 1]
    ensures Backtracked(o, p, i - 1, j - 1, ops + [OP_EQUAL], data)
  {
    ReversePush(ops, OP_EQUAL);
    var back := [OP_EQUAL] + Reverse(ops);
    assert back[1..] == Reverse(ops) && o[i - 1..][1..] == o[i..] && p[j - 1..][1..] == p[j..];
  }

  lemma BackInsert(o: Bytes, p: Bytes, i: nat, j: nat, ops: Bytes, data: Bytes)
    requires Backtracked(o, p, i, j, ops, data) && i > 0
    requires Distance(o, p, i, j) == Distance(o, p, i - 1, j) + 1
    ensures Backtracked(o, p, i - 1, j, ops + [OP_INSERT], data + [o[i - 1]])
  {
    ReversePush(ops, OP_INSERT);
    ReversePush(data, o[i - 1]);
    var back, bytes := [OP_INSERT] + Reverse(ops), [o[i - 1]] + Reverse(data);
    assert back[1..] == Reverse(ops) && bytes[1..] == Reverse(data) && o[i - 1..][1..] == o[i..];
  }

  lemma BackDelete(o: Bytes, p: Bytes, i: nat, j: nat, ops: Bytes, data: Bytes)
    requires Backtracked(o, p, i, j, ops, data) && j > 0
    requires Distance(o, p, i, j) == Distance(o, p, i, j - 1) + 1
    ensures Backtracked(o, p, i, j - 1, ops + [OP_DELETE], data)
  {
    ReversePush(ops, OP_DELETE);
    var back := [OP_DELETE] + Reverse(ops);
    assert back[1..] == Reverse(ops) && p[j - 1..][1..] == p[j..];
  }

  // The substitution branch: a delete and an insert, taken from the diagonal.
  lemma BackSubstitute(o: Bytes, p: Bytes, i: nat, j: nat, ops: Bytes, data: Bytes)
    requires Backtracked(o, p, i, j, ops, data) && i > 0 && j > 0
    requires Distance(o, p, i, j) == Distance(o, p, i - 1, j - 1) + 2
    ensures Backtracked(o, p, i - 1, j - 1, ops + [OP_DELETE] + [OP_INSERT], data + [o[i - 1]])
  {
    hide Aligns, Cost;
    Neighbours(o, p, i, j);
    Neighbours(o, p, i, j - 1);
    Neighbours(o, p, i - 1, j);
    BackDelete(o, p, i, j, ops, data);
    BackInsert(o, p, i, j - 1, ops + [OP_DELETE], data);
  }

  // Which neighbour the last branch of the loop may rely on.
  lemma DeleteCell(o: Bytes, p: Bytes, i: nat, j: nat)
    requires i <= |o| && j <= |p| && (i > 0 || j > 0)
    requires !(i > 0 && j > 0 && o[i - 1] == p[j - 1])
    ensures i > 0 && j == 0 ==> Distance(o, p, i, j) == Distance(o, p, i - 1, j) + 1
    ensures !(i > 0 && (j == 0 || Distance(o, p, i, j) == Distance(o, p, i - 1, j) + 1)) ==>
              j > 0 && Distance(o, p, i, j) == Distance(o, p, i, j - 1) + 1
  {
  }

  lemma BackStarts(o: Bytes, p: Bytes)
    ensures Backtracked(o, p, |o|, |p|, [], [])
  {
  }

  lemma BackEnds(o: Bytes, p: Bytes, ops: Bytes, data: Bytes)
    requires Backtracked(o, p, 0, 0, ops, data)
    ensures Aligns(Reverse(ops), Reverse(data), p, o) && Cost(Reverse(ops)) == Distance(o, p, |o|, |p|)
  {
    assert o[0..] == o && p[0..] == p;
  }

  // Walks the table back from its last cell; ops and data come out reversed.
  method Backtrack(original: Bytes, pattern: Bytes, dp: array2<int>) returns (ops: Bytes, data: Bytes)
    requires dp.Length0 == |original| + 1 && dp.Length1 == |pattern| + 1
    requires forall i, j :: 0 <= i <= |original| && 0 <= j <= |pattern| ==>
               dp[i, j] == Distance(original, pattern, i, j)
    ensures Backtracked(original, pattern, 0, 0, ops, data)
  {
    hide *;
    ops, data := [], [];
    var i, j := |original|, |pattern|;
    BackStarts(original, pattern);
    while i > 0 || j > 0
      invariant 0 <= i <= |original| && 0 <= j <= |pattern|
      invariant Backtracked(original, pattern, i, j, ops, data)
      decreases i + j
    {
      if i > 0 && j > 0 && original[i - 1] == pattern[j - 1] {
        BackEqual(original, pattern, i, j, ops, data);
        ops := ops + [OP_EQUAL];
        i, j := i - 1, j - 1;
      } else if i > 0 && j > 0 && dp[i, j] == dp[i - 1, j - 1] + 2 {
        BackSubstitute(original, pattern, i, j, ops, data);
        ops := ops + [OP_DELETE] + [OP_INSERT];
        data := data + [original[i - 1]];
        i, j := i - 1, j - 1;
      } else {
        DeleteCell(original, pattern, i, j);
        if i > 0 && (j == 0 || dp[i, j] == dp[i - 1, j] + 1) {
          BackInsert(original, pattern, i, j, ops, data);
          ops := ops + [OP_INSERT];
          data := data + [original[i - 1]];
          i := i - 1;
        } else {
          BackDelete(original, pattern, i, j, ops, data);
          ops := ops + [OP_DELETE];
          j := j - 1;
        }
      }
    }
  }

  // The in-place reversal loop of Diff.
  method ReverseInPlace(s: Bytes) returns (r: Bytes)
    ensures r == Reverse(s)
  {
    r := s;
    var k := 0;
    while k < |r| / 2
      invariant 0 <= k <= |s| / 2 && |r| == |s|
      invariant forall a :: 0 <= a < k ==> r[a] == s[|s| - 1 - a] && r[|s| - 1 - a] == s[a]
      invariant forall a :: k <= a < |s| - k ==> r[a] == s[a]
    {
      r := r[k := r[|r| - 1 - k]][|r| - 1 - k := r[k]];
      k := k + 1;
    }
    SameElements(r, Reverse(s));
  }

  // How many of the first k operations are inserts.
  ghost function Inserts(ops: Bytes, k: nat): nat
    requires k <= |ops|
  {
    if k == 0 then 0 else Inserts(ops, k - 1) + if ops[k - 1] == OP_INSERT then 1 else 0
  }

  lemma {:induction false} InsertsTail(ops: Bytes, k: nat)
    requires 1 <= k <= |ops|
    ensures Inserts(ops, k) == (if ops[0] == OP_INSERT then 1 else 0) + Inserts(ops[1..], k - 1)
  {
    if k > 1 { InsertsTail(ops, k - 1); }
  }

  lemma {:induction false} InsertsRun(ops: Bytes, k: nat, count: nat)
    requires k + count <= |ops| && k < |ops| && ops[k..k + count] == Repeat(ops[k], count)
    ensures Inserts(ops, k + count) == Inserts(ops, k) + if ops[k] == OP_INSERT then count else 0
  {
    if count > 0 {
      assert ops[k..k + count][count - 1] == ops[k + count - 1];
      assert ops[k..k + count - 1] == ops[k..k + count][..count - 1] == Repeat(ops[k], count - 1);
      InsertsRun(ops, k, count - 1);
    }
  }

  lemma {:induction false} InsertsGrow(ops: Bytes, j: nat, k: nat)
    requires j <= k <= |ops|
    ensures Inserts(ops, j) <= Inserts(ops, k)
  {
    if j < k { InsertsGrow(ops, j, k - 1); }
  }

  // There is exactly one data byte for each insert, and no unknown operation.
  lemma {:induction false} AlignsInserts(ops: Bytes, data: Bytes, p: Bytes, o: Bytes)
    requires Aligns(ops, data, p, o)
    ensures Inserts(ops, |ops|) == |data| && forall k :: 0 <= k < |ops| ==> ops[k] <= OP_DELETE
  {
    if ops != [] {
      AlignsInserts(ops[1..], if ops[0] == OP_INSERT then data[1..] else data,
                    if ops[0] == OP_INSERT then p else p[1..], if ops[0] == OP_DELETE then o else o[1..]);
      InsertsTail(ops, |ops|);
    }
  }

  // ----- how short a script can be -----------------------------------------

  // The run of equal operations at k, given that it takes in at least n.
  ghost function Span(ops: Bytes, k: nat, n: nat): (m: nat)
    requires k < |ops| && 1 <= n <= 255 && k + n <= |ops|
    ensures n <= m <= 255 && k + m <= |ops|
    decreases 255 - n
  {
    if n < 255 && k + n < |ops| && ops[k + n] == ops[k] then Span(ops, k, n + 1) else n
  }

  lemma {:induction false} SpanIs(ops: Bytes, k: nat, n: nat)
    requires k < |ops| && 1 <= n <= 255 && k + n <= |ops| && forall a :: k <= a < k + n ==> ops[a] == ops[k]
    ensures var m := Span(ops, k, n);
            && (forall a :: k <= a < k + m ==> ops[a] == ops[k])
            && (m == 255 || k + m == |ops| || ops[k + m] != ops[k])
    decreases 255 - n
  {
    if n < 255 && k + n < |ops| && ops[k + n] == ops[k] { SpanIs(ops, k, n + 1); }
  }

  // The runs needed for the operations from k on, each taken as long as it can be.
  ghost function RunCount(ops: Bytes, k: nat): nat
    decreases |ops| - k
  {
    if k >= |ops| then 0 else 1 + RunCount(ops, k + Span(ops, k, 1))
  }

  // Starting further on never takes more runs.
  lemma {:induction false} RunCountShrinks(ops: Bytes, k: nat, j: nat)
    requires k <= j <= |ops|
    ensures RunCount(ops, j) <= RunCount(ops, k)
    decreases |ops| - k
  {
    if k < j < |ops| {
      SpanIs(ops, k, 1);
      SpanIs(ops, j, 1);
      var end, end' := k + Span(ops, k, 1), j + Span(ops, j, 1);
      if j < end {
        assert ops[j] == ops[k];
        RunCountShrinks(ops, end, end');
      } else {
        RunCountShrinks(ops, end, j);
      }
    }
  }

  // The runs of a script.
  ghost function Runs(script: Bytes): nat
    requires Expand(script).Some?
  {
    if script == [] then 0 else 1 + Runs(script[RunLength(script)..])
  }

  // Two bytes a run, and the bytes inserted.
  lemma {:induction false} ScriptLength(script: Bytes)
    requires Expand(script).Some?
    ensures |script| == 2 * Runs(script) + |Expand(script).value.data|
  {
    if script != [] {
      ExpandTail(script);
      ScriptLength(script[RunLength(script)..]);
    }
  }

  lemma {:induction false} RunsNeeded(script: Bytes, ops: Bytes, k: nat)
    requires Expand(script).Some? && k <= |ops| && Expand(script).value.ops == ops[k..]
    ensures Runs(script) >= RunCount(ops, k)
    decreases |script|
  {
    hide *;
    if script == [] {
      NoneLeft(ops);
      assert k == |ops| by { NoneExpanded(ops, k); }
    } else {
      ExpandTail(script);
      var used, count: nat := RunLength(script), script[1];
      var rest := Expand(script[used..]).value;
      ExpandHead(script, used);
      OneMoreRun(script);
      if script[0] > OP_DELETE || count == 0 {
        PrependNothing(script[0], count, script[2..used], rest);
        RunsNeeded(script[used..], ops, k);
      } else {
        PrependOps(script[0], count, script[2..used], rest);
        FirstRun(ops, k, script[0], count, rest.ops);
        RunsNeeded(script[used..], ops, k + count);
        RunCountShrinks(ops, k + count, k + Span(ops, k, 1));
        RunCountNext(ops, k);
      }
    }
  }

  lemma NoneExpanded(ops: Bytes, k: nat)
    requires k <= |ops| && Expand([]).Some? && Expand([]).value.ops == ops[k..]
    ensures k == |ops|
  {
  }

  lemma OneMoreRun(script: Bytes)
    requires script != [] && Expand(script).Some?
    ensures |script| >= 2 && RunLength(script) <= |script| && Expand(script[RunLength(script)..]).Some?
    ensures Runs(script) == 1 + Runs(script[RunLength(script)..]) && RunLength(script) >= 2
  {
  }

  lemma RunCountNext(ops: Bytes, k: nat)
    requires k < |ops|
    ensures RunCount(ops, k) == 1 + RunCount(ops, k + Span(ops, k, 1))
  {
  }

  lemma PrependNothing(op: byte, count: nat, inserted: Bytes, rest: Edits)
    requires op > OP_DELETE || count == 0
    ensures Prepend(op, count, inserted, rest).ops == rest.ops
  {
    assert Repeat(op, 0) + rest.ops == rest.ops;
  }

  lemma PrependOps(op: byte, count: nat, inserted: Bytes, rest: Edits)
    requires op <= OP_DELETE
    ensures Prepend(op, count, inserted, rest).ops == Repeat(op, count) + rest.ops
  {
  }

  lemma FirstRun(ops: Bytes, k: nat, op: byte, count: nat, rest: Bytes)
    requires k <= |ops| && 1 <= count <= 255 && ops[k..] == Repeat(op, count) + rest
    ensures k + count <= |ops| && ops[k + count..] == rest && count <= Span(ops, k, 1)
  {
    assert |ops[k..]| == count + |rest|;
    forall a | k <= a < k + count
      ensures ops[a] == op
    {
      assert ops[k..][a - k] == (Repeat(op, count) + rest)[a - k];
    }
    assert ops[k..][count..] == ops[k + count..] && (Repeat(op, count) + rest)[count..] == rest;
    SpanIs(ops, k, 1);
  }

  lemma {:induction false} RunsAppend(a: Bytes, b: Bytes)
    requires Expand(a).Some? && Expand(b).Some?
    ensures Expand(a + b).Some? && Runs(a + b) == Runs(a) + Runs(b)
    decreases |a|
  {
    ExpandAppend(a, b);
    if a == [] {
      assert a + b == b;
      NoRuns();
    } else {
      hide *;
      var used, whole := RunLength(a), a + b;
      OneMoreRun(a);
      FirstRunStays(a, b);
      OneMoreRun(whole);
      RunsAppend(a[used..], b);
    }
  }

  // No script that stands for the same operations and data is shorter.
  ghost predicate IsShortest(script: Bytes) {
    Expand(script).Some? && forall other :: Expand(other) == Expand(script) ==> |script| <= |other|
  }

  lemma FewestRuns(script: Bytes, ops: Bytes, data: Bytes)
    requires Expand(script) == Some(Edits(ops, data)) && Runs(script) == RunCount(ops, 0)
    ensures IsShortest(script)
  {
    ScriptLength(script);
    forall other | Expand(other) == Expand(script)
      ensures |script| <= |other|
    {
      assert ops[0..] == ops;
      RunsNeeded(other, ops, 0);
      ScriptLength(other);
    }
  }

  // The length of the run of equal operations at k: it ends at 255, at the end, or
  // at a different operation.
  method RunAt(ops: Bytes, k: nat) returns (count: byte)
    requires k < |ops|
    ensures 1 <= count <= 255 && k + count <= |ops|
    ensures ops[k..k + count] == Repeat(ops[k], count)
    ensures count == 255 || k + count == |ops| || ops[k + count] != ops[k]
  {
    count := 1;
    while k + count < |ops| && ops[k + count] == ops[k] && count < 255
      invariant 1 <= count <= 255 && k + count <= |ops|
      invariant forall a :: k <= a < k + count ==> ops[a] == ops[k]
    {
      count := count + 1;
    }
  }

  // The invariant of the run-length loop: the script so far stands for the
  // first k operations and the data their inserts take.
  ghost predicate Coded(ops: Bytes, data: Bytes, k: nat, at: nat, script: Bytes) {
    k <= |ops| && at <= |data| && at == Inserts(ops, k) && Expand(script) == Some(Edits(ops[..k], data[..at]))
  }

  // And with as few runs.
  lemma CountRun(ops: Bytes, k: nat, script: Bytes, count: byte, inserted: Bytes)
    requires Expand(script).Some? && Runs(script) + RunCount(ops, k) == RunCount(ops, 0)
    requires 1 <= count && k + count <= |ops| && ops[k] <= OP_DELETE && ops[k..k + count] == Repeat(ops[k], count)
    requires count == 255 || k + count == |ops| || ops[k + count] != ops[k]
    requires if ops[k] == OP_INSERT then |inserted| == count else inserted == []
    ensures Expand(script + Run(ops[k], count, inserted)).Some?
    ensures Runs(script + Run(ops[k], count, inserted)) + RunCount(ops, k + count) == RunCount(ops, 0)
  {
    hide *;
    SameOps(ops, k, count);
    RunCountNext(ops, k);
    SpanOf(ops, k, 1, count);
    ExpandRun(ops[k], count, inserted);
    OneRun(ops[k], count, inserted);
    RunsAppend(script, Run(ops[k], count, inserted));
  }

  lemma SameOps(ops: Bytes, k: nat, count: byte)
    requires 1 <= count && k + count <= |ops| && ops[k..k + count] == Repeat(ops[k], count)
    ensures forall a :: k <= a < k + count ==> ops[a] == ops[k]
  {
    forall a | k <= a < k + count
      ensures ops[a] == ops[k]
    {
      assert ops[k..k + count][a - k] == ops[a];
    }
  }

  lemma OneRun(op: byte, count: byte, inserted: Bytes)
    requires op <= OP_DELETE && if op == OP_INSERT then |inserted| == count else inserted == []
    ensures Expand(Run(op, count, inserted)).Some? && Runs(Run(op, count, inserted)) == 1
  {
    var run := Run(op, count, inserted);
    ExpandRun(op, count, inserted);
    assert run[RunLength(run)..] == [];
  }

  lemma {:induction false} SpanOf(ops: Bytes, k: nat, n: nat, count: nat)
    requires k < |ops| && 1 <= n <= count <= 255 && k + count <= |ops| && forall a :: k <= a < k + count ==> ops[a] == ops[k]
    requires count == 255 || k + count == |ops| || ops[k + count] != ops[k]
    ensures Span(ops, k, n) == count
    decreases count - n
  {
    if n < count { SpanOf(ops, k, n + 1, count); }
  }

  lemma CodeRun(ops: Bytes, data: Bytes, k: nat, at: nat, script: Bytes, count: byte)
    requires Inserts(ops, |ops|) == |data| && Coded(ops, data, k, at, script)
    requires k < k + count <= |ops| && ops[k] <= OP_DELETE && ops[k..k + count] == Repeat(ops[k], count)
    ensures ops[k] == OP_INSERT ==>
              at + count <= |data| &&
              Coded(ops, data, k + count, at + count, script + Run(ops[k], count, data[at..at + count]))
    ensures ops[k] != OP_INSERT ==> Coded(ops, data, k + count, at, script + Run(ops[k], count, []))
  {
    hide Expand, Inserts, Run;
    InsertsRun(ops, k, count);
    InsertsGrow(ops, k + count, |ops|);
    assert ops[..k] + ops[k..k + count] == ops[..k + count];
    var end := if ops[k] == OP_INSERT then at + count else at;
    var inserted := data[at..end];
    assert data[..at] + inserted == data[..end];
    ExpandRun(ops[k], count, inserted);
    ExpandAppend(script, Run(ops[k], count, inserted));
  }

  lemma CodeStarts(ops: Bytes, data: Bytes)
    ensures Coded(ops, data, 0, 0, [])
  {
  }

  lemma CodeEnds(ops: Bytes, data: Bytes, at: nat, script: Bytes)
    requires Inserts(ops, |ops|) == |data| && Coded(ops, data, |ops|, at, script)
    ensures Expand(script) == Some(Edits(ops, data))
  {
    assert ops[..|ops|] == ops && data[..|data|] == data;
  }

  // Run-length codes the operations, at most 255 to a run, as shortly as can be.
  method EncodeRuns(ops: Bytes, data: Bytes) returns (script: Bytes)
    requires Inserts(ops, |ops|) == |data| && forall k :: 0 <= k < |ops| ==> ops[k] <= OP_DELETE
    ensures Expand(script) == Some(Edits(ops, data)) && IsShortest(script)
  {
    hide *;
    script := [];
    var dataIdx: nat, k: nat := 0, 0;
    CodeStarts(ops, data);
    NoRuns();
    while k < |ops|
      invariant 0 <= k <= |ops|
      invariant Coded(ops, data, k, dataIdx, script)
      invariant Expand(script).Some? && Runs(script) + RunCount(ops, k) == RunCount(ops, 0)
    {
      var op := ops[k];
      var count := RunAt(ops, k);
      CodeRun(ops, data, k, dataIdx, script, count);
      CountRun(ops, k, script, count, if op == OP_INSERT then data[dataIdx..dataIdx + count] else []);
      if op == OP_INSERT {
        script := script + Run(op, count, data[dataIdx..dataIdx + count]);
        dataIdx := dataIdx + count;
      } else {
        script := script + Run(op, count, []);
      }
      k := k + count;
    }
    CodeEnds(ops, data, dataIdx, script);
    NoneLeft(ops);
    FewestRuns(script, ops, data);
  }

  lemma NoRuns()
    ensures Expand([]).Some? && Runs([]) == 0
  {
  }

  lemma NoneLeft(ops: Bytes)
    ensures RunCount(ops, |ops|) == 0
  {
  }

  method Diff(original: Bytes, pattern: Bytes) returns (script: Bytes)
    ensures IsMinimalScript(script, pattern, original) && IsShortest(script)
  {
    var dp := Table(original, pattern);
    var ops, data := Backtrack(original, pattern, dp);
    BackEnds(original, pattern, ops, data);
    ops := ReverseInPlace(ops);
    data := ReverseInPlace(data);
    AlignsInserts(ops, data, pattern, original);
    script := EncodeRuns(ops, data);
    DiffIsMinimal(script, ops, data, pattern, original);
  }

  ghost predicate IsScriptFor(script: Bytes, pattern: Bytes, original: Bytes) {
    Expand(script).Some? && Aligns(Expand(script).value.ops, Expand(script).value.data, pattern, original)
  }

  // A script for the pair, and no script for the pair inserts and deletes less.
  ghost predicate IsMinimalScript(script: Bytes, pattern: Bytes, original: Bytes) {
    && IsScriptFor(script, pattern, original)
    && Cost(Expand(script).value.ops) == Distance(original, pattern, |original|, |pattern|)
    && forall other :: IsScriptFor(other, pattern, original) ==>
                         Cost(Expand(script).value.ops) <= Cost(Expand(other).value.ops)
  }

  lemma DiffIsMinimal(script: Bytes, ops: Bytes, data: Bytes, pattern: Bytes, original: Bytes)
    requires Expand(script) == Some(Edits(ops, data))
    requires Aligns(ops, data, pattern, original)
    requires Cost(ops) == Distance(original, pattern, |original|, |pattern|)
    ensures IsMinimalScript(script, pattern, original)
  {
    forall other | IsScriptFor(other, pattern, original)
      ensures Cost(ops) <= Cost(Expand(other).value.ops)
    {
      var e := Expand(other).value;
      assert pattern[0..] == pattern && original[0..] == original;
      DistanceIsLeast(e.ops, e.data, pattern, original, 0, 0);
    }
  }

  // ApplyPatch undoes Diff; indeed it undoes every script for the pair.
  lemma PatchRoundTrip(script: Bytes, pattern: Bytes, original: Bytes)
    requires IsScriptFor(script, pattern, original)
    ensures Applied(pattern, 0, script) == Ok(original)
  {
    assert pattern[0..] == pattern;
    AppliedAligned(pattern, 0, script, Expand(script).value, original);
  }
}
