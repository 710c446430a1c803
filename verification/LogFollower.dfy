/** `follow`: the batching loop over a log file that grows while it is read. */
module LogFollower {
  import opened Sequences

  const BATCH_SIZE := 10

  function Newlines(s: string): nat {
    if s == [] then 0 else (if s[|s| - 1] == '\n' then 1 else 0) + Newlines(s[..|s| - 1])
  }

  function Joined(batches: seq<string>): string {
    if batches == [] then [] else Joined(batches[..|batches| - 1]) + batches[|batches| - 1]
  }

  /** `readline` at the head of what is left: up to and including the first line break, or all of it. */
  function ReadLine(left: string): (r: string)
    ensures r <= left
    ensures r == [] <==> left == []
    ensures forall i :: 0 <= i < |r| - 1 ==> r[i] != '\n'
    ensures |r| < |left| ==> r[|r| - 1] == '\n'
  {
    if left == [] then []
    else if left[0] == '\n' then [left[0]]
    else [left[0]] + ReadLine(left[1..])
  }

  lemma {:induction false} NewlinesConcat(a: string, b: string)
    ensures Newlines(a + b) == Newlines(a) + Newlines(b)
    decreases |b|
  {
    if b == [] {
      assert a + b == a;
    } else {
      assert (a + b)[..|a + b| - 1] == a + b[..|b| - 1];
      NewlinesConcat(a, b[..|b| - 1]);
    }
  }

  lemma {:induction false} OneLine(left: string)
    ensures Newlines(ReadLine(left)) == if left != [] && ReadLine(left)[|ReadLine(left)| - 1] == '\n' then 1 else 0
  {
    if left != [] {
      if left[0] == '\n' {
        assert Newlines([left[0]]) == 1;
      } else {
        OneLine(left[1..]);
        NewlinesConcat([left[0]], ReadLine(left[1..]));
        assert Newlines([left[0]]) == 0;
      }
    }
  }

  predicate EndsWithNewline(s: string) {
    s != [] && s[|s| - 1] == '\n'
  }

  lemma PendingGrows(line: string, left: string)
    requires left != []
    ensures EndsWithNewline(line + ReadLine(left)) <==> EndsWithNewline(ReadLine(left))
    ensures Newlines(line + ReadLine(left)) == Newlines(line) + (if EndsWithNewline(ReadLine(left)) then 1 else 0)
  {
    var tmp := ReadLine(left);
    assert tmp != [];
    assert (line + tmp)[|line + tmp| - 1] == tmp[|tmp| - 1];
    OneLine(left);
    NewlinesConcat(line, tmp);
  }

  lemma JoinedOneMore(batches: seq<string>, b: string)
    ensures Joined(batches + [b]) == Joined(batches) + b
  {
    assert (batches + [b])[..|batches|] == batches;
  }

  // ------------------------------------------------------------------------- the loop

  /** What was handed over, the pending text and its line count, and the read position. */
  datatype State = State(batches: seq<string>, line: string, lineCount: nat, position: nat)

  const Start := State([], "", 0, 0)

  /** One turn, with the file holding `content`. */
  function Turn(st: State, content: string): State
    requires st.position <= |content|
  {
    var tmp := ReadLine(content[st.position..]);
    if tmp != [] then
      var line := st.line + tmp;
      var count := st.lineCount + if EndsWithNewline(line) then 1 else 0;
      if count >= BATCH_SIZE then State(st.batches + [line], "", 0, st.position + |tmp|)
      else State(st.batches, line, count, st.position + |tmp|)
    else if st.line != "" then State(st.batches + [st.line], "", 0, st.position)
    else st
  }

  /** What the file holds at each turn: a log only grows. */
  ghost predicate Growing(seen: seq<string>) {
    forall i, j :: 0 <= i <= j < |seen| ==> seen[i] <= seen[j]
  }

  /** The state after the turns that saw `seen`. */
  ghost function Turns(seen: seq<string>): (st: State)
    requires Growing(seen)
    ensures st.position <= if seen == [] then 0 else |seen[|seen| - 1]|
  {
    if seen == [] then Start
    else
      var n := |seen| - 1;
      assert n > 0 ==> seen[n - 1] <= seen[n];
      Turn(Turns(seen[..n]), seen[n])
  }

  /** The loop, stopped after `|seen|` turns. */
  method Follow(seen: seq<string>) returns (batches: seq<string>, line: string, lineCount: nat, position: nat)
    requires Growing(seen)
    ensures State(batches, line, lineCount, position) == Turns(seen)
  {
    batches, line, lineCount, position := [], "", 0, 0;
    var i := 0;
    while i < |seen|
      invariant 0 <= i <= |seen| && position <= if i == 0 then 0 else |seen[i - 1]|
      invariant State(batches, line, lineCount, position) == Turns(seen[..i])
    {
      assert seen[..i + 1][..i] == seen[..i];
      assert i > 0 ==> seen[i - 1] <= seen[i];
      batches, line, lineCount, position := OneTurn(batches, line, lineCount, position, seen[i]);
      i := i + 1;
    }
    assert seen[..i] == seen;
  }

  /** The loop body. */
  method OneTurn(batches: seq<string>, line: string, lineCount: nat, position: nat, content: string)
    returns (batches': seq<string>, line': string, lineCount': nat, position': nat)
    requires position <= |content|
    ensures State(batches', line', lineCount', position') == Turn(State(batches, line, lineCount, position), content)
  {
    batches', line', lineCount', position' := batches, line, lineCount, position;
    var tmp := ReadLine(content[position..]);
    position' := position + |tmp|;
    if tmp != [] {
      line' := line + tmp;
      if EndsWithNewline(line') {
        lineCount' := lineCount + 1;
      }
      if lineCount' >= BATCH_SIZE {
        batches', line', lineCount' := batches + [line'], "", 0;
      }
    } else if line != "" {
      batches', line', lineCount' := batches + [line], "", 0;
    }
  }

  // -------------------------------------------------------------------- what it keeps

  ghost predicate Inv(st: State, content: string) {
    && st.position <= |content|
    && Joined(st.batches) + st.line == content[..st.position]
    && st.lineCount == Newlines(st.line) < BATCH_SIZE
  }

  lemma ReadMore(content: string, position: nat)
    requires position <= |content|
    ensures content[..position] + ReadLine(content[position..]) == content[..position + |ReadLine(content[position..])|]
  {
  }

  lemma ReadingKeepsInv(st: State, content: string)
    requires Inv(st, content) && st.position < |content|
    ensures Inv(Turn(st, content), content)
  {
    var left := content[st.position..];
    PendingGrows(st.line, left);
    ReadMore(content, st.position);
    Associative(Joined(st.batches), st.line, ReadLine(left));
    JoinedOneMore(st.batches, st.line + ReadLine(left));
  }

  lemma HandingOverKeepsInv(st: State, content: string)
    requires Inv(st, content) && st.position == |content|
    ensures Inv(Turn(st, content), content)
  {
    JoinedOneMore(st.batches, st.line);
    NothingHeld(st.batches, st.line);
  }

  lemma NothingHeld(batches: seq<string>, line: string)
    ensures Joined(batches) + line + "" == Joined(batches) + line
  {
  }

  lemma TurnKeepsInv(st: State, content: string)
    requires Inv(st, content)
    ensures Inv(Turn(st, content), content)
  {
    if st.position < |content| {
      ReadingKeepsInv(st, content);
    } else {
      HandingOverKeepsInv(st, content);
    }
  }

  lemma InvLater(st: State, content: string, later: string)
    requires Inv(st, content) && content <= later
    ensures Inv(st, later)
  {
    assert content[..st.position] == later[..st.position];
  }

  /** At every turn the batches handed over and the pending text are together what was read, and
      `line_count` is the number of line breaks in the pending text, fewer than ten. */
  lemma {:induction false} NothingLostOrReordered(seen: seq<string>)
    requires Growing(seen)
    ensures Inv(Turns(seen), if seen == [] then "" else seen[|seen| - 1])
    decreases |seen|
  {
    if seen != [] {
      var n := |seen| - 1;
      NothingLostOrReordered(seen[..n]);
      InvLater(Turns(seen[..n]), if n == 0 then "" else seen[n - 1], seen[n]);
      TurnKeepsInv(Turns(seen[..n]), seen[n]);
    }
  }

  /** What a stop after these turns loses: the pending text, with at most nine line breaks, and what
      the loop has not read; nothing at all exactly when the batches are the file. */
  lemma StopDrops(seen: seq<string>)
    requires Growing(seen) && seen != []
    ensures var st, content := Turns(seen), seen[|seen| - 1];
            && content == Joined(st.batches) + (st.line + content[st.position..])
            && Newlines(st.line) <= 9
            && (Joined(st.batches) == content <==> st.line == "" && st.position == |content|)
  {
    var st, content := Turns(seen), seen[|seen| - 1];
    NothingLostOrReordered(seen);
    Associative(Joined(st.batches), st.line, content[st.position..]);
    assert content == content[..st.position] + content[st.position..];
    var lost := st.line + content[st.position..];
    assert |content| == |Joined(st.batches)| + |lost|;
    if lost == "" {
      assert Joined(st.batches) + lost == Joined(st.batches);
    }
  }

  /** A batch of ten lines, or one that brought everything up to `content` over. */
  ghost predicate GoodBatch(before: string, batch: string, content: string) {
    && batch != [] && Newlines(batch) <= 10
    && ((Newlines(batch) == 10 && EndsWithNewline(batch)) || before + batch == content)
  }

  /** A turn hands over at most one batch. */
  lemma TurnHandsOver(st: State, content: string)
    requires Inv(st, content)
    ensures var after := Turn(st, content).batches;
            after == st.batches
            || (exists b :: after == st.batches + [b] && GoodBatch(Joined(st.batches), b, content))
  {
    var left := content[st.position..];
    if left != [] {
      PendingGrows(st.line, left);
      assert Turn(st, content).batches == st.batches
             || (Turn(st, content).batches == st.batches + [st.line + ReadLine(left)]
                 && GoodBatch(Joined(st.batches), st.line + ReadLine(left), content));
    } else if st.line != "" {
      assert content[..st.position] == content;
      assert GoodBatch(Joined(st.batches), st.line, content);
    }
  }

  /** Every batch is non-empty and holds at most ten line breaks; it holds ten and ends with one,
      unless it was handed over at a turn that found nothing more in the file. */
  lemma {:induction false} BatchesAreGood(seen: seq<string>, k: nat)
    requires Growing(seen) && k < |Turns(seen).batches|
    ensures var batches := Turns(seen).batches;
            exists content :: content in seen && GoodBatch(Joined(batches[..k]), batches[k], content)
    decreases |seen|
  {
    var n := |seen| - 1;
    var before, now := Turns(seen[..n]).batches, Turns(seen).batches;
    NothingLostOrReordered(seen[..n]);
    InvLater(Turns(seen[..n]), if n == 0 then "" else seen[n - 1], seen[n]);
    TurnHandsOver(Turns(seen[..n]), seen[n]);
    if k < |before| {
      BatchesAreGood(seen[..n], k);
      assert before[..k] == now[..k] && before[k] == now[k];
    } else {
      assert now[..k] == before;
      assert seen[n] in seen && GoodBatch(Joined(before), now[k], seen[n]);
    }
  }

  // ----------------------------------------------------------------- a silent writer

  /** `k` more turns that all see the same content. */
  function Silent(st: State, content: string, k: nat): (after: State)
    requires st.position <= |content|
    ensures after.position <= |content|
    decreases k
  {
    if k == 0 then st else Turn(Silent(st, content, k - 1), content)
  }

  lemma TurnAdvances(st: State, content: string)
    requires Inv(st, content)
    ensures Inv(Turn(st, content), content)
    ensures st.position < |content| ==> Turn(st, content).position > st.position
    ensures st.position == |content| ==> Turn(st, content).position == |content| && Turn(st, content).line == ""
  {
    TurnKeepsInv(st, content);
    var left := content[st.position..];
    assert left == [] <==> st.position == |content|;
    assert ReadLine(left) == [] <==> left == [];
  }

  /** Everything is handed over, or at least `k` characters have been read since `start`. */
  ghost predicate Progressed(st: State, content: string, start: nat, k: nat) {
    // bound to a name, so that it is proved as one goal and not conjunct by conjunct
    var all := Inv(st, content) && ((st.position == |content| && st.line == "") || st.position >= start + k);
    all
  }

  lemma TurnProgresses(st: State, content: string, start: nat, k: nat)
    requires Progressed(st, content, start, k)
    ensures Progressed(Turn(st, content), content, start, k + 1)
  {
    TurnAdvances(st, content);
  }

  lemma NextProgresses(st: State, content: string, k: nat)
    requires st.position <= |content| && Progressed(Silent(st, content, k), content, st.position, k)
    ensures Progressed(Silent(st, content, k + 1), content, st.position, k + 1)
  {
    TurnProgresses(Silent(st, content, k), content, st.position, k);
  }

  lemma SilentProgresses(st: State, content: string, k: nat)
    requires Inv(st, content)
    ensures Progressed(Silent(st, content, k), content, st.position, k)
  {
    forall i: nat | Progressed(Silent(st, content, i), content, st.position, i)
      ensures Progressed(Silent(st, content, i + 1), content, st.position, i + 1)
    {
      NextProgresses(st, content, i);
    }
    Iteration(i => Silent(st, content, i), (s: State, i: nat) => Progressed(s, content, st.position, i), k);
  }

  lemma AllIsHandedOver(st: State, content: string)
    requires Inv(st, content) && st.position == |content| && st.line == ""
    ensures Joined(st.batches) == content
  {
    assert Joined(st.batches) + "" == Joined(st.batches);
  }

  /** Once the writer is silent, everything the file holds gets handed over: it takes at most one
      turn per character left to read, and one more. */
  lemma SilentFileIsHandedOver(st: State, content: string, k: nat)
    requires Inv(st, content) && k > |content| - st.position
    ensures Silent(st, content, k).line == "" && Joined(Silent(st, content, k).batches) == content
  {
    SilentProgresses(st, content, k);
    AllIsHandedOver(Silent(st, content, k), content);
  }
}
