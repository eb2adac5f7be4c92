/** The line scanner of the backup text: `convert_entity` reads one
    `key:value` block, `convert_maps` walks the file and keeps the blocks of
    the four entity kinds the migration uses. */
module Scanner {
  import opened Wrappers
  import opened Text

  const Terminator: string := "$$"
  const EntityPrefix: string := "$ENTITY:"

  datatype Field = Field(key: string, value: string)

  /** One parsed block and the index of the line after its `$$`. */
  datatype Block = Block(fields: map<string, string>, next: nat)

  datatype EntityKind = CurrencyKind | AccountKind | CategoryKind | TransactionsKind

  datatype Record = Record(kind: EntityKind, fields: map<string, string>)

  datatype ScanError =
    /** no `$$` closes the block that starts here: the source indexes past the end and panics */
    | Unterminated(start: nat)
    /** a line that is neither a marker nor a block start: the source never advances and loops forever */
    | Loops(at: nat)

  /** A line with a colon names a field: the text before the first colon is
      the key (`$ENTITY` is renamed `entity`), the rest is the value. */
  function FieldOf(line: string): Option<Field>
  {
    match FindChar(line, ':')
    case None => None
    case Some(p) =>
      var name := line[..p];
      Some(Field(if name == "$ENTITY" then "entity" else name, line[p + 1..]))
  }

  /** Colon-less lines give no field; otherwise the split is at the first
      colon, so the key holds no colon and the value may. */
  lemma FieldOfSplits(line: string)
    ensures FieldOf(line).None? <==> ':' !in line
    ensures FieldOf(line).Some? ==>
      && (':' !in FieldOf(line).value.key || FieldOf(line).value.key == "entity")
      && exists p :: SplitsAt(line, p, FieldOf(line).value) && ':' !in line[..p]
  {
    match FindChar(line, ':')
    case None =>
    case Some(p) =>
      assert SplitsAt(line, p, FieldOf(line).value);
  }

  /** `f` is what `line` gives when split at its colon `p`. */
  predicate SplitsAt(line: string, p: int, f: Field)
  {
    && 0 <= p < |line| && line[p] == ':'
    && f.value == line[p + 1..]
    && f.key == (if line[..p] == "$ENTITY" then "entity" else line[..p])
  }

  function AddField(m: map<string, string>, f: Option<Field>): map<string, string>
  {
    match f
    case None => m
    case Some(f) => m[f.key := f.value]
  }

  /** The field each line gives, line by line. */
  ghost function LineFields(lines: seq<string>): (fs: seq<Option<Field>>)
    ensures |fs| == |lines|
  {
    seq(|lines|, i requires 0 <= i < |lines| => FieldOf(lines[i]))
  }

  ghost predicate KeyAt(fs: seq<Option<Field>>, i: int, k: string)
    requires 0 <= i < |fs|
  {
    fs[i].Some? && fs[i].value.key == k
  }

  /** Some field of `fs[from..to]` has key `k`. */
  ghost predicate HasKey(fs: seq<Option<Field>>, from: int, to: int, k: string)
    requires 0 <= from && to <= |fs|
  {
    exists i :: from <= i < to && KeyAt(fs, i, k)
  }

  /** Among `fs[from..to]`, the last field with key `k` has value `v`. */
  ghost predicate LastWith(fs: seq<Option<Field>>, from: int, to: int, k: string, v: string)
    requires 0 <= from <= to <= |fs|
  {
    exists i :: from <= i < to && fs[i] == Some(Field(k, v)) && !HasKey(fs, i + 1, to, k)
  }

  /** `m` holds exactly the keys of `fs[from..to]`, each with the value of
      the last field that has that key: later duplicates overwrite earlier
      ones, and lines without a field add nothing. */
  ghost predicate FieldMap(m: map<string, string>, fs: seq<Option<Field>>, from: int, to: int)
    requires 0 <= from <= to <= |fs|
  {
    && (forall k :: k in m <==> HasKey(fs, from, to, k))
    && (forall k :: k in m ==> LastWith(fs, from, to, k, m[k]))
  }

  lemma AddFieldStep(m: map<string, string>, fs: seq<Option<Field>>, from: int, to: int)
    requires 0 <= from <= to < |fs|
    requires FieldMap(m, fs, from, to)
    ensures FieldMap(AddField(m, fs[to]), fs, from, to + 1)
  {
    var m' := AddField(m, fs[to]);
    forall k
      ensures k in m' <==> HasKey(fs, from, to + 1, k)
      ensures k in m' ==> LastWith(fs, from, to + 1, k, m'[k])
    {
      if KeyAt(fs, to, k) {
        assert m' == m[k := fs[to].value.value];
        assert !HasKey(fs, to + 1, to + 1, k);
      } else {
        assert k in m' <==> k in m;
        assert k in m ==> m'[k] == m[k];
        assert HasKey(fs, from, to + 1, k) ==> HasKey(fs, from, to, k);
        if k in m {
          var i :| from <= i < to && fs[i] == Some(Field(k, m[k])) && !HasKey(fs, i + 1, to, k);
          assert !HasKey(fs, i + 1, to + 1, k);
        }
      }
    }
  }

  /** No line of `lines[from..to]` is `$$`. */
  predicate NoTerminator(lines: seq<string>, from: int, to: int)
    requires 0 <= from <= to <= |lines|
  {
    forall j :: from <= j < to ==> lines[j] != Terminator
  }

  /** Some line at or after `from` is `$$`. */
  predicate HasTerminator(lines: seq<string>, from: int)
    requires 0 <= from
  {
    exists j :: from <= j < |lines| && lines[j] == Terminator
  }

  /** The fields of `fs[from..to]` folded into a map in order. */
  ghost function FoldFields(fs: seq<Option<Field>>, from: nat, to: nat): map<string, string>
    requires from <= to <= |fs|
  {
    if to == from then map[] else AddField(FoldFields(fs, from, to - 1), fs[to - 1])
  }

  /** Folding keeps, for each key, the value of its last occurrence. */
  lemma {:induction false} FoldIsFieldMap(fs: seq<Option<Field>>, from: nat, to: nat)
    requires from <= to <= |fs|
    ensures FieldMap(FoldFields(fs, from, to), fs, from, to)
  {
    if to > from {
      FoldIsFieldMap(fs, from, to - 1);
      AddFieldStep(FoldFields(fs, from, to - 1), fs, from, to - 1);
    }
  }

  /** The loop of `convert_entity` from line `i` on, with `acc` the fields
      read since `start`. */
  function ScanBlock(lines: seq<string>, start: nat, i: nat, acc: map<string, string>)
    : (r: Result<Block, ScanError>)
    requires start <= i <= |lines|
    requires NoTerminator(lines, start, i)
    requires acc == FoldFields(LineFields(lines), start, i)
    ensures r.Success? <==> HasTerminator(lines, i)
    ensures r.Failure? ==> r.error == Unterminated(start)
    ensures r.Success? ==>
      && i < r.value.next <= |lines|
      && lines[r.value.next - 1] == Terminator
      && NoTerminator(lines, start, r.value.next - 1)
      && r.value.fields == FoldFields(LineFields(lines), start, r.value.next - 1)
    decreases |lines| - i
  {
    if i == |lines| then Failure(Unterminated(start))
    else if lines[i] == Terminator then
      var b := Block(acc, i + 1);
      assert b.next - 1 == i;
      Success(b)
    else
      assert HasTerminator(lines, i) ==> HasTerminator(lines, i + 1);
      ghost var fs := LineFields(lines);
      assert fs[i] == FieldOf(lines[i]);
      ScanBlock(lines, start, i + 1, AddField(acc, FieldOf(lines[i])))
  }

  /** `convert_entity`: reads lines from `index` up to and including the
      first `$$` and returns their fields and the index just past the `$$`. */
  function ConvertEntity(lines: seq<string>, index: nat): (r: Result<Block, ScanError>)
    ensures r.Success? <==> HasTerminator(lines, index)
    ensures r.Failure? ==> r.error == Unterminated(index)
    ensures r.Success? ==>
      && index < r.value.next <= |lines|
      && lines[r.value.next - 1] == Terminator
      && NoTerminator(lines, index, r.value.next - 1)
      && r.value.fields == FoldFields(LineFields(lines), index, r.value.next - 1)
  {
    if index > |lines| then Failure(Unterminated(index))
    else ScanBlock(lines, index, index, map[])
  }

  /** The block `convert_entity` returns maps each key of its lines to the
      value on the last line with that key. */
  lemma ConvertEntityFields(lines: seq<string>, index: nat)
    requires ConvertEntity(lines, index).Success?
    ensures var b := ConvertEntity(lines, index).value;
      FieldMap(b.fields, LineFields(lines), index, b.next - 1)
  {
    var b := ConvertEntity(lines, index).value;
    var fs, last := LineFields(lines), b.next - 1;
    assert b.fields == FoldFields(fs, index, last);
    FoldIsFieldMap(fs, index, last);
  }

  function KindName(k: EntityKind): string
  {
    match k
    case CurrencyKind => "currency"
    case AccountKind => "account"
    case CategoryKind => "category"
    case TransactionsKind => "transactions"
  }

  /** The record a block becomes: kept only when its `entity` field names
      one of the four kinds. */
  function Dispatch(fields: map<string, string>): (r: seq<Record>)
    ensures |r| <= 1
    ensures |r| == 1 <==> "entity" in fields && exists k :: KindName(k) == fields["entity"]
    ensures |r| == 1 ==> r[0].fields == fields && KindName(r[0].kind) == fields["entity"]
  {
    if "entity" !in fields then []
    else
      var e := fields["entity"];
      assert KindName(CurrencyKind) == "currency" && KindName(AccountKind) == "account";
      assert KindName(CategoryKind) == "category" && KindName(TransactionsKind) == "transactions";
      if e == "currency" then [Record(CurrencyKind, fields)]
      else if e == "account" then [Record(AccountKind, fields)]
      else if e == "category" then [Record(CategoryKind, fields)]
      else if e == "transactions" then [Record(TransactionsKind, fields)]
      else
        assert forall k :: KindName(k) != e;
        []
  }

  predicate IsMarker(line: string)
  {
    line == "#START" || line == "#END"
  }

  predicate IsBlockStart(line: string)
  {
    |EntityPrefix| <= |line| && line[..|EntityPrefix|] == EntityPrefix
  }

  /** Every record carries the fields of its block and is tagged by the
      block's `entity` field. */
  ghost predicate WellTagged(records: seq<Record>)
  {
    forall j :: 0 <= j < |records| ==>
      "entity" in records[j].fields && records[j].fields["entity"] == KindName(records[j].kind)
  }

  lemma WellTaggedAppend(acc: seq<Record>, d: seq<Record>)
    requires WellTagged(acc)
    requires |d| <= 1 && (|d| == 1 ==> "entity" in d[0].fields && d[0].fields["entity"] == KindName(d[0].kind))
    ensures WellTagged(acc + d)
  {
  }

  lemma PrefixOfPrefix(acc: seq<Record>, d: seq<Record>, r: Result<seq<Record>, ScanError>)
    requires r.Success? ==> |acc + d| <= |r.value| && r.value[..|acc + d|] == acc + d
    ensures r.Success? ==> |acc| <= |r.value| && r.value[..|acc|] == acc
  {
    if r.Success? {
      assert r.value[..|acc|] == (acc + d)[..|acc|];
    }
  }

  /** The main loop of `convert_maps` from line `index` on. */
  function ScanFrom(lines: seq<string>, index: nat, acc: seq<Record>): (r: Result<seq<Record>, ScanError>)
    requires WellTagged(acc)
    ensures r.Success? ==> |acc| <= |r.value| && r.value[..|acc|] == acc && WellTagged(r.value)
    ensures r.Failure? && r.error.Loops? ==>
      index <= r.error.at < |lines| && !IsMarker(lines[r.error.at]) && !IsBlockStart(lines[r.error.at])
    ensures r.Failure? && r.error.Unterminated? ==>
      index <= r.error.start < |lines| && IsBlockStart(lines[r.error.start])
      && !HasTerminator(lines, r.error.start)
    decreases |lines| - index
  {
    if index >= |lines| then Success(acc)
    else if IsMarker(lines[index]) then ScanFrom(lines, index + 1, acc)
    else if IsBlockStart(lines[index]) then
      match ConvertEntity(lines, index)
      case Failure(e) => Failure(e)
      case Success(b) =>
        var d := Dispatch(b.fields);
        WellTaggedAppend(acc, d);
        var r := ScanFrom(lines, b.next, acc + d);
        PrefixOfPrefix(acc, d, r);
        r
    else Failure(Loops(index))
  }

  /** Where a block read at `s` ends: the line after its `$$`. */
  function BlockEnd(lines: seq<string>, s: nat): nat
  {
    match ConvertEntity(lines, s)
    case Success(b) => b.next
    case Failure(_) => s
  }

  /** The scan can pass lines `from .. to - 1` and reads a block at each
      line of `starts`, in order: a marker is passed alone, a block start is
      passed together with its block up to and including its `$$`. */
  ghost predicate Walk(lines: seq<string>, from: nat, to: nat, starts: seq<nat>)
    decreases to - from
  {
    if to <= from then starts == []
    else if |lines| < to then false
    else if IsMarker(lines[from]) then Walk(lines, from + 1, to, starts)
    else
      && IsBlockStart(lines[from])
      && ConvertEntity(lines, from).Success?
      && |starts| > 0 && starts[0] == from
      && BlockEnd(lines, from) <= to
      && Walk(lines, BlockEnd(lines, from), to, starts[1..])
  }

  /** Line `i` lies inside one of the blocks read at `starts`. */
  ghost predicate InsideBlock(lines: seq<string>, starts: seq<nat>, i: int)
  {
    exists k :: 0 <= k < |starts| && starts[k] <= i < BlockEnd(lines, starts[k])
  }

  /** A walk reads terminated blocks at block-start lines, in increasing
      line order and without overlap. */
  lemma {:induction false} WalkBlocks(lines: seq<string>, from: nat, to: nat, starts: seq<nat>)
    requires Walk(lines, from, to, starts)
    decreases if from <= to then to - from else 0
    ensures from < to ==> to <= |lines|
    ensures forall k :: 0 <= k < |starts| ==>
      && from <= starts[k] < to && starts[k] < |lines|
      && IsBlockStart(lines[starts[k]])
      && ConvertEntity(lines, starts[k]).Success?
      && starts[k] < BlockEnd(lines, starts[k]) <= to
  {
    if from < to {
      if IsMarker(lines[from]) {
        WalkBlocks(lines, from + 1, to, starts);
      } else {
        var rest := starts[1..];
        WalkBlocks(lines, BlockEnd(lines, from), to, rest);
        assert forall k :: 1 <= k < |starts| ==> starts[k] == rest[k - 1];
      }
    }
  }

  /** The blocks a walk reads do not overlap: each ends at or before the
      next one starts. */
  lemma {:induction false} WalkOrdered(lines: seq<string>, from: nat, to: nat, starts: seq<nat>)
    requires Walk(lines, from, to, starts)
    decreases if from <= to then to - from else 0
    ensures forall k :: 0 <= k < |starts| - 1 ==> BlockEnd(lines, starts[k]) <= starts[k + 1]
  {
    if from < to {
      if IsMarker(lines[from]) {
        WalkOrdered(lines, from + 1, to, starts);
      } else {
        var rest := starts[1..];
        WalkOrdered(lines, BlockEnd(lines, from), to, rest);
        if |rest| > 0 {
          WalkBlocks(lines, BlockEnd(lines, from), to, rest);
          assert BlockEnd(lines, starts[0]) <= rest[0];
        }
        assert forall k :: 1 <= k < |starts| ==> starts[k] == rest[k - 1];
      }
    }
  }

  /** Every line a walk passes is a marker or lies inside a block it reads. */
  lemma {:induction false} WalkCovers(lines: seq<string>, from: nat, to: nat, starts: seq<nat>)
    requires Walk(lines, from, to, starts)
    requires to <= |lines|
    decreases if from <= to then to - from else 0
    ensures forall i :: from <= i < to ==> IsMarker(lines[i]) || InsideBlock(lines, starts, i)
  {
    if from < to {
      if IsMarker(lines[from]) {
        WalkCovers(lines, from + 1, to, starts);
      } else {
        var next := BlockEnd(lines, from);
        var rest := starts[1..];
        WalkCovers(lines, next, to, rest);
        forall i | from <= i < to && !IsMarker(lines[i])
          ensures InsideBlock(lines, starts, i)
        {
          if i < next {
            assert starts[0] <= i < BlockEnd(lines, starts[0]);
          } else {
            var k :| 0 <= k < |rest| && rest[k] <= i < BlockEnd(lines, rest[k]);
            assert starts[k + 1] == rest[k];
          }
        }
      }
    }
  }

  /** The records of the blocks read at `starts`, in order: each block
      contributes its dispatch. */
  function Records(lines: seq<string>, starts: seq<nat>): seq<Record>
  {
    if |starts| == 0 then []
    else
      (match ConvertEntity(lines, starts[0])
       case Success(b) => Dispatch(b.fields)
       case Failure(_) => []) + Records(lines, starts[1..])
  }

  /** `r`, the outcome of the loop from line `index` with records `acc`
      found so far, is what a walk from `index` predicts: a success is the
      records of a walk to the last line, a `Loops` error names the line
      right after a walk, and an `Unterminated` error the block start right
      after one. */
  ghost predicate FollowsWalk(lines: seq<string>, index: nat, acc: seq<Record>, r: Result<seq<Record>, ScanError>)
  {
    && (r.Success? ==> exists starts :: Walk(lines, index, |lines|, starts) && r.value == acc + Records(lines, starts))
    && (r.Failure? && r.error.Loops? ==> exists starts :: Walk(lines, index, r.error.at, starts))
    && (r.Failure? && r.error.Unterminated? ==> exists starts :: Walk(lines, index, r.error.start, starts))
  }

  /** The loop of `convert_maps` follows a walk from `index`. */
  lemma {:induction false} ScanFromWalk(lines: seq<string>, index: nat, acc: seq<Record>)
    requires WellTagged(acc)
    ensures FollowsWalk(lines, index, acc, ScanFrom(lines, index, acc))
    decreases |lines| - index
  {
    if index >= |lines| {
      assert Walk(lines, index, |lines|, []);
      assert acc + Records(lines, []) == acc;
    } else if IsMarker(lines[index]) {
      ScanFromWalk(lines, index + 1, acc);
      MarkerFollows(lines, index, acc, ScanFrom(lines, index + 1, acc));
    } else if IsBlockStart(lines[index]) {
      match ConvertEntity(lines, index)
      case Failure(e) =>
        assert Walk(lines, index, index, []);
      case Success(b) =>
        var d := Dispatch(b.fields);
        WellTaggedAppend(acc, d);
        ScanFromWalk(lines, b.next, acc + d);
        BlockFollows(lines, index, acc, d, ScanFrom(lines, b.next, acc + d));
    } else {
      assert Walk(lines, index, index, []);
    }
  }

  /** Passing a marker line extends the walk by that line. */
  lemma MarkerFollows(lines: seq<string>, index: nat, acc: seq<Record>, r: Result<seq<Record>, ScanError>)
    requires index < |lines| && IsMarker(lines[index])
    requires FollowsWalk(lines, index + 1, acc, r)
    requires r.Failure? && r.error.Loops? ==> index < r.error.at <= |lines|
    requires r.Failure? && r.error.Unterminated? ==> index < r.error.start <= |lines|
    ensures FollowsWalk(lines, index, acc, r)
  {
    if r.Success? {
      var starts :| Walk(lines, index + 1, |lines|, starts) && r.value == acc + Records(lines, starts);
      assert Walk(lines, index, |lines|, starts);
    } else if r.error.Loops? {
      var starts :| Walk(lines, index + 1, r.error.at, starts);
      assert Walk(lines, index, r.error.at, starts);
    } else {
      var starts :| Walk(lines, index + 1, r.error.start, starts);
      assert Walk(lines, index, r.error.start, starts);
    }
  }

  /** Reading a terminated block at `index` extends the walk by that block
      and the records by its dispatch `d`. */
  lemma BlockFollows(lines: seq<string>, index: nat, acc: seq<Record>, d: seq<Record>,
                     r: Result<seq<Record>, ScanError>)
    requires index < |lines| && !IsMarker(lines[index]) && IsBlockStart(lines[index])
    requires ConvertEntity(lines, index).Success? && d == Dispatch(ConvertEntity(lines, index).value.fields)
    requires FollowsWalk(lines, BlockEnd(lines, index), acc + d, r)
    requires r.Failure? && r.error.Loops? ==> BlockEnd(lines, index) <= r.error.at <= |lines|
    requires r.Failure? && r.error.Unterminated? ==> BlockEnd(lines, index) <= r.error.start <= |lines|
    ensures FollowsWalk(lines, index, acc, r)
  {
    var next := BlockEnd(lines, index);
    if r.Success? {
      var starts :| Walk(lines, next, |lines|, starts) && r.value == (acc + d) + Records(lines, starts);
      BlockFollowsSuccess(lines, index, acc, d, starts, r);
    } else {
      var at := if r.error.Loops? then r.error.at else r.error.start;
      var starts :| Walk(lines, next, at, starts);
      WalkBlock(lines, index, at, starts);
    }
  }

  lemma BlockFollowsSuccess(lines: seq<string>, index: nat, acc: seq<Record>, d: seq<Record>,
                            starts: seq<nat>, r: Result<seq<Record>, ScanError>)
    requires index < |lines| && !IsMarker(lines[index]) && IsBlockStart(lines[index])
    requires ConvertEntity(lines, index).Success? && d == Dispatch(ConvertEntity(lines, index).value.fields)
    requires r.Success? && Walk(lines, BlockEnd(lines, index), |lines|, starts)
    requires r.value == (acc + d) + Records(lines, starts)
    ensures Walk(lines, index, |lines|, [index] + starts) && r.value == acc + Records(lines, [index] + starts)
  {
    WalkBlock(lines, index, |lines|, starts);
    RecordsStep(lines, index, acc, d, starts);
  }

  lemma RecordsStep(lines: seq<string>, index: nat, acc: seq<Record>, d: seq<Record>, starts: seq<nat>)
    requires ConvertEntity(lines, index).Success? && d == Dispatch(ConvertEntity(lines, index).value.fields)
    ensures (acc + d) + Records(lines, starts) == acc + Records(lines, [index] + starts)
  {
    RecordsCons(lines, index, starts);
    var rs := Records(lines, starts);
    assert (acc + d) + rs == acc + (d + rs);
  }

  lemma RecordsCons(lines: seq<string>, index: nat, starts: seq<nat>)
    requires ConvertEntity(lines, index).Success?
    ensures Records(lines, [index] + starts) == Dispatch(ConvertEntity(lines, index).value.fields) + Records(lines, starts)
  {
    assert ([index] + starts)[1..] == starts;
  }

  lemma WalkBlock(lines: seq<string>, index: nat, to: nat, starts: seq<nat>)
    requires index < |lines| && !IsMarker(lines[index]) && IsBlockStart(lines[index])
    requires ConvertEntity(lines, index).Success?
    requires BlockEnd(lines, index) <= to <= |lines|
    requires Walk(lines, BlockEnd(lines, index), to, starts)
    ensures Walk(lines, index, to, [index] + starts)
  {
    assert ([index] + starts)[1..] == starts;
  }

  /** `convert_maps`: skips the four header lines, then reads blocks. A
      success returns the records of the blocks a walk over the whole file
      reads; a `Loops` error names the first line after line 4 that the scan
      cannot pass, every earlier one being passed as a marker or inside a
      block. */
  function ConvertMaps(lines: seq<string>): (r: Result<seq<Record>, ScanError>)
    ensures r.Success? ==> WellTagged(r.value)
    ensures r.Success? ==> exists starts :: Walk(lines, 4, |lines|, starts) && r.value == Records(lines, starts)
    ensures r.Failure? && r.error.Loops? ==>
      && 4 <= r.error.at < |lines| && !IsMarker(lines[r.error.at]) && !IsBlockStart(lines[r.error.at])
      && exists starts :: Walk(lines, 4, r.error.at, starts)
    ensures r.Failure? && r.error.Unterminated? ==>
      && 4 <= r.error.start < |lines| && IsBlockStart(lines[r.error.start]) && !HasTerminator(lines, r.error.start)
      && exists starts :: Walk(lines, 4, r.error.start, starts)
  {
    ScanFromWalk(lines, 4, []);
    assert forall x: seq<Record> :: [] + x == x;
    ScanFrom(lines, 4, [])
  }

  /** Where the scan of `convert_maps` stops: the line a failure names, or
      the end of the file. */
  function StopLine(lines: seq<string>, r: Result<seq<Record>, ScanError>): nat
  {
    match r
    case Success(_) => |lines|
    case Failure(Loops(at)) => at
    case Failure(Unterminated(start)) => start
  }

  /** What a walk passes: terminated blocks at block-start lines in
      increasing order, and nothing but markers between them. */
  ghost predicate Passes(lines: seq<string>, from: nat, to: nat, starts: seq<nat>)
  {
    && (forall k :: 0 <= k < |starts| ==>
          && from <= starts[k] < |lines| && IsBlockStart(lines[starts[k]])
          && ConvertEntity(lines, starts[k]).Success?
          && starts[k] < BlockEnd(lines, starts[k]) <= to)
    && (forall k :: 0 <= k < |starts| - 1 ==> BlockEnd(lines, starts[k]) <= starts[k + 1])
    && (forall i :: from <= i < to && i < |lines| ==> IsMarker(lines[i]) || InsideBlock(lines, starts, i))
  }

  lemma WalkPasses(lines: seq<string>, from: nat, to: nat, starts: seq<nat>)
    requires Walk(lines, from, to, starts) && to <= |lines|
    ensures Passes(lines, from, to, starts)
  {
    WalkBlocks(lines, from, to, starts);
    WalkOrdered(lines, from, to, starts);
    WalkCovers(lines, from, to, starts);
  }

  /** The lines `convert_maps` passes before it stops: it reads terminated
      blocks at block-start lines in increasing order, every line from 4 up
      to the stop is a marker or inside one of those blocks, and a success
      is exactly those blocks' records. So a failure names the first line
      the scan cannot pass. */
  lemma ConvertMapsPasses(lines: seq<string>)
    ensures var r := ConvertMaps(lines);
      exists starts ::
        && Walk(lines, 4, StopLine(lines, r), starts)
        && Passes(lines, 4, StopLine(lines, r), starts)
        && (r.Success? ==> r.value == Records(lines, starts))
  {
    var r := ConvertMaps(lines);
    var stop := StopLine(lines, r);
    var starts :| Walk(lines, 4, stop, starts) && (r.Success? ==> r.value == Records(lines, starts));
    WalkPasses(lines, 4, stop, starts);
  }
}
