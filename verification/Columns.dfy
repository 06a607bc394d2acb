/**
  Columns written by workers: a worker numbers a column's blocks from 0 and
  records its pages and entries; the leader renumbers them as it replays the
  records, and the index comes out as a serial build writes it.
*/
module Columns {
  import opened Options

  // A page of a posting or position tree: its links, the tree it belongs to,
  // and its items, which on an internal page are its children.
  datatype PageImage = PageImage(left: Option<nat>, right: Option<nat>, owner: Option<nat>, level: nat, items: seq<nat>)

  // An entry: its posting tree's first and last leaf, and its position tree.
  datatype EntryImage = EntryImage(chain: bool, head: Option<nat>, tail: Option<nat>,
                                   positions: bool, posRoot: Option<nat>, data: nat)

  // What writing a column does: takes a block, finishes a page, adds an entry.
  datatype Action = Alloc | Put(blk: nat, page: PageImage) | Add(entry: EntryImage)

  // What a worker records instead, with the blocks it had handed out by then.
  datatype Record =
    | PageRecord(nblocks: nat, blk: nat, page: PageImage)
    | EntryRecord(nblocks: nat, entry: EntryImage)
    | EndRecord(nblocks: nat)

  // The index: its block counter, the pages written, and what the directory
  // was given, each entry with the counter at which it was.
  datatype Added = Added(entry: EntryImage, at: nat)
  datatype Index = Index(nblocks: nat, file: map<nat, PageImage>, log: seq<Added>)

  // Blocks the directory takes for the last entry, whatever it goes by.
  type Directory = seq<Added> -> nat

  /* ---------- renumbering ---------- */

  function NumberOf(s: seq<nat>, b: nat): nat { if b < |s| then s[b] else 0 }

  function LinkOf(s: seq<nat>, b: Option<nat>): Option<nat> { if b.None? then None else Some(NumberOf(s, b.value)) }

  function PageOf(s: seq<nat>, p: PageImage): PageImage {
    PageImage(LinkOf(s, p.left), LinkOf(s, p.right), LinkOf(s, p.owner), p.level,
              if p.level > 0 then seq(|p.items|, i requires 0 <= i < |p.items| => NumberOf(s, p.items[i])) else p.items)
  }

  function EntryOf(s: seq<nat>, e: EntryImage): EntryImage {
    EntryImage(e.chain, if e.chain then LinkOf(s, e.head) else e.head, if e.chain then LinkOf(s, e.tail) else e.tail,
               e.positions, if e.positions then LinkOf(s, e.posRoot) else e.posRoot, e.data)
  }

  // What renumbering is: r names the block that b named, by its number in s.
  ghost predicate IsNumber(s: seq<nat>, b: Option<nat>, r: Option<nat>) {
    (r.None? <==> b.None?) && (b.Some? ==> b.value < |s| && r == Some(s[b.value]))
  }

  // q is p, field by field, with every block it names by its number.
  ghost predicate IsRenumbered(s: seq<nat>, p: PageImage, q: PageImage) {
    && IsNumber(s, p.left, q.left) && IsNumber(s, p.right, q.right) && IsNumber(s, p.owner, q.owner)
    && q.level == p.level && |q.items| == |p.items|
    && (p.level == 0 ==> q.items == p.items)
    && (p.level > 0 ==> forall i :: 0 <= i < |p.items| ==> p.items[i] < |s| && q.items[i] == s[p.items[i]])
  }

  ghost predicate IsRenumberedEntry(s: seq<nat>, e: EntryImage, f: EntryImage) {
    && f.chain == e.chain && f.positions == e.positions && f.data == e.data
    && (if e.chain then IsNumber(s, e.head, f.head) && IsNumber(s, e.tail, f.tail)
        else f.head == e.head && f.tail == e.tail)
    && (if e.positions then IsNumber(s, e.posRoot, f.posRoot) else f.posRoot == e.posRoot)
  }

  lemma PageIsRenumbered(s: seq<nat>, p: PageImage)
    requires PageOk(p, |s|)
    ensures IsRenumbered(s, p, PageOf(s, p))
  {
  }

  lemma EntryIsRenumbered(s: seq<nat>, e: EntryImage)
    requires EntryOk(e, |s|)
    ensures IsRenumberedEntry(s, e, EntryOf(s, e))
  {
  }

  // Every block named is one of the first n.
  predicate LinkOk(b: Option<nat>, n: nat) { b.Some? ==> b.value < n }

  predicate PageOk(p: PageImage, n: nat) {
    LinkOk(p.left, n) && LinkOk(p.right, n) && LinkOk(p.owner, n) &&
    (p.level > 0 ==> forall i :: 0 <= i < |p.items| ==> p.items[i] < n)
  }

  predicate EntryOk(e: EntryImage, n: nat) {
    (e.chain ==> LinkOk(e.head, n) && LinkOk(e.tail, n)) && (e.positions ==> LinkOk(e.posRoot, n))
  }

  /* ---------- a serial build ---------- */

  // The index, and the number each of the column's blocks has in it.
  datatype Progress = Progress(index: Index, numbers: seq<nat>)

  ghost function PutPage(p: Progress, b: nat, page: PageImage): (r: Progress)
    ensures r.numbers == p.numbers && r.index.nblocks == p.index.nblocks
  {
    p.(index := p.index.(file := p.index.file[NumberOf(p.numbers, b) := PageOf(p.numbers, page)]))
  }

  ghost function AddEntry(p: Progress, e: EntryImage, dir: Directory): (r: Progress)
    ensures r.numbers == p.numbers && r.index.nblocks >= p.index.nblocks
  {
    var log := p.index.log + [Added(EntryOf(p.numbers, e), p.index.nblocks)];
    p.(index := Index(p.index.nblocks + dir(log), p.index.file, log))
  }

  // The column's first i actions done by the process that builds the index.
  ghost function Serial(script: seq<Action>, i: nat, from: Index, dir: Directory): Progress
    requires i <= |script|
  {
    if i == 0 then Progress(from, [])
    else
      var p := Serial(script, i - 1, from, dir);
      match script[i - 1]
      case Alloc => Progress(p.index.(nblocks := p.index.nblocks + 1), p.numbers + [p.index.nblocks])
      case Put(b, page) => PutPage(p, b, page)
      case Add(e) => AddEntry(p, e, dir)
  }

  /* ---------- the worker ---------- */

  ghost function Allocs(script: seq<Action>, i: nat): nat
    requires i <= |script|
  {
    if i == 0 then 0 else Allocs(script, i - 1) + if script[i - 1].Alloc? then 1 else 0
  }

  // What is written names only blocks handed out by then.
  ghost predicate Sound(script: seq<Action>) {
    forall i :: 0 <= i < |script| ==>
      match script[i]
      case Alloc => true
      case Put(b, page) => b < Allocs(script, i) && PageOk(page, Allocs(script, i))
      case Add(e) => EntryOk(e, Allocs(script, i))
  }

  // The records of the first i actions.
  ghost function Stream(script: seq<Action>, i: nat): seq<Record>
    requires i <= |script|
  {
    if i == 0 then []
    else
      var before := Stream(script, i - 1);
      match script[i - 1]
      case Alloc => before
      case Put(b, page) => before + [PageRecord(Allocs(script, i - 1), b, page)]
      case Add(e) => before + [EntryRecord(Allocs(script, i - 1), e)]
  }

  method WriteColumn(script: seq<Action>) returns (records: seq<Record>)
    ensures records == Stream(script, |script|) + [EndRecord(Allocs(script, |script|))]
  {
    var nblocks := 0;
    records := [];
    for i := 0 to |script|
      invariant nblocks == Allocs(script, i) && records == Stream(script, i)
    {
      match script[i] {
        case Alloc => nblocks := nblocks + 1;
        case Put(b, page) => records := records + [PageRecord(nblocks, b, page)];
        case Add(e) => records := records + [EntryRecord(nblocks, e)];
      }
    }
    records := records + [EndRecord(nblocks)];
  }

  /* ---------- the leader's map of a worker's blocks ---------- */

  datatype BlockRun = BlockRun(from: nat, to: nat)

  // The worker's blocks up to n numbered with the next ones of the counter.
  function Consecutive(from: nat, n: nat): (s: seq<nat>)
    ensures |s| == n && forall i :: 0 <= i < n ==> s[i] == from + i
  {
    seq(n, i => from + i)
  }

  ghost function Extended(p: Progress, n: nat): Progress {
    if n <= |p.numbers| then p
    else Progress(p.index.(nblocks := p.index.nblocks + n - |p.numbers|),
                  p.numbers + Consecutive(p.index.nblocks, n - |p.numbers|))
  }

  class BlockMap {
    var runs: seq<BlockRun>
    var mapped: nat
    ghost var numbers: seq<nat>

    // Runs of consecutive blocks: block b of run r is to + (b - from).
    ghost predicate Valid()
      reads this
    {
      && |numbers| == mapped && (mapped > 0 <==> runs != [])
      && (runs != [] ==> runs[0].from == 0)
      && (forall r :: 0 <= r < |runs| ==> runs[r].from < mapped)
      && (forall r, q :: 0 <= r < q < |runs| ==> runs[r].from < runs[q].from)
      && (forall r, b :: Holds(r, b) ==> numbers[b] == runs[r].to + (b - runs[r].from))
    }

    ghost predicate Holds(r: int, b: int)
      reads this
    {
      0 <= r < |runs| && runs[r].from <= b < (if r + 1 < |runs| then runs[r + 1].from else mapped)
      && mapped == |numbers| && 0 <= b < mapped
    }

    constructor ()
      ensures Valid() && numbers == []
    {
      runs, mapped, numbers := [], 0, [];
    }

    // The next blocks of the counter, a new run where the directory has taken
    // blocks in between. Fails when the record goes back.
    method Extend(next: nat, nblocks: nat) returns (ok: bool, after: nat)
      requires Valid()
      modifies this
      ensures Valid() && (ok <==> old(mapped) <= nblocks)
      ensures ok ==> after == next + (nblocks - old(mapped))
      ensures ok ==> numbers == old(numbers) + Consecutive(next, nblocks - old(mapped))
    {
      if nblocks < mapped {
        return false, next;
      }
      ok, after := true, next;
      if nblocks == mapped {
        return;
      }
      var n := |runs|;
      if n == 0 || runs[n - 1].to + (mapped - runs[n - 1].from) != next {
        runs := runs + [BlockRun(mapped, next)];
      }
      numbers := numbers + Consecutive(next, nblocks - mapped);
      after := next + (nblocks - mapped);
      mapped := nblocks;
      forall r, b | Holds(r, b)
        ensures numbers[b] == runs[r].to + (b - runs[r].from)
      {
        if b < old(mapped) {
          assert old(Holds(r, b));
        }
      }
    }

    // The index's number of a worker's block, by bisection; None for one the
    // worker has not handed out.
    method Get(b: nat) returns (r: Option<nat>)
      requires Valid()
      ensures r == if b < mapped then Some(numbers[b]) else None
    {
      if b >= mapped {
        return None;
      }
      var lo, hi := 0, |runs| - 1;
      while lo < hi
        invariant 0 <= lo <= hi < |runs| && runs[lo].from <= b
        invariant hi + 1 < |runs| ==> b < runs[hi + 1].from
      {
        var mid := lo + (hi - lo + 1) / 2;
        if runs[mid].from <= b {
          lo := mid;
        } else {
          hi := mid - 1;
        }
      }
      assert Holds(lo, b);
      return Some(runs[lo].to + (b - runs[lo].from));
    }

    method GetLink(b: Option<nat>) returns (ok: bool, r: Option<nat>)
      requires Valid()
      ensures (ok <==> LinkOk(b, mapped)) && (ok ==> IsNumber(numbers, b, r) && r == LinkOf(numbers, b))
    {
      if b.None? {
        return true, None;
      }
      r := Get(b.value);
      ok := r.Some?;
    }

    method RenumberPage(p: PageImage) returns (ok: bool, q: PageImage)
      requires Valid()
      ensures (ok <==> PageOk(p, mapped)) && (ok ==> IsRenumbered(numbers, p, q) && q == PageOf(numbers, p))
    {
      var right, left, owner, ok1, ok2, ok3;
      q := p;
      ok1, right := GetLink(p.right);
      ok2, left := GetLink(p.left);
      ok3, owner := GetLink(p.owner);
      ok := ok1 && ok2 && ok3;
      if !ok {
        return;
      }
      var items := p.items;
      if p.level > 0 {
        ok, items := RenumberItems(p.items);
      }
      q := PageImage(left, right, owner, p.level, items);
    }

    method RenumberItems(children: seq<nat>) returns (ok: bool, items: seq<nat>)
      requires Valid()
      ensures ok <==> forall k :: 0 <= k < |children| ==> children[k] < mapped
      ensures ok ==> |items| == |children|
      ensures ok ==> forall k :: 0 <= k < |items| ==> items[k] == NumberOf(numbers, children[k])
    {
      items := children;
      for i := 0 to |children|
        invariant |items| == |children|
        invariant forall k :: 0 <= k < i ==> children[k] < mapped && items[k] == NumberOf(numbers, children[k])
      {
        var child := Get(children[i]);
        if child.None? {
          return false, items;
        }
        items := items[i := child.value];
      }
      ok := true;
    }

    method RenumberEntry(e: EntryImage) returns (ok: bool, f: EntryImage)
      requires Valid()
      ensures (ok <==> EntryOk(e, mapped)) && (ok ==> IsRenumberedEntry(numbers, e, f) && f == EntryOf(numbers, e))
    {
      ok, f := true, e;
      if e.chain {
        var ok1, ok2, head, tail;
        ok1, head := GetLink(e.head);
        ok2, tail := GetLink(e.tail);
        ok := ok1 && ok2;
        f := f.(head := head, tail := tail);
      }
      if e.positions {
        var ok3, root;
        ok3, root := GetLink(e.posRoot);
        ok := ok && ok3;
        f := f.(posRoot := root);
      }
    }
  }

  /* ---------- the leader ---------- */

  // The map's numbers are of blocks of the index, each its own.
  lemma {:induction false} NumbersAscend(script: seq<Action>, i: nat, from: Index, dir: Directory)
    requires i <= |script|
    ensures var p := Serial(script, i, from, dir);
            && from.nblocks <= p.index.nblocks && |p.numbers| == Allocs(script, i)
            && (forall b :: 0 <= b < |p.numbers| ==> from.nblocks <= p.numbers[b] < p.index.nblocks)
            && forall b, c :: 0 <= b < c < |p.numbers| ==> p.numbers[b] < p.numbers[c]
  {
    hide PutPage, AddEntry;
    if i > 0 {
      NumbersAscend(script, i - 1, from, dir);
    }
  }

  // What one record leaves, of the numbers it extends the map to.
  ghost function Replayed(p: Progress, r: Record, dir: Directory): Progress {
    var q := Extended(p, r.nblocks);
    match r
    case PageRecord(_, b, page) => PutPage(q, b, page)
    case EntryRecord(_, e) => AddEntry(q, e, dir)
    case EndRecord(_) => q
  }

  ghost predicate RecordOk(p: Progress, r: Record) {
    && |p.numbers| <= r.nblocks
    && match r
       case PageRecord(n, b, page) => b < n && PageOk(page, n)
       case EntryRecord(n, e) => EntryOk(e, n)
       case EndRecord(_) => true
  }

  ghost function ReplayTo(records: seq<Record>, k: nat, from: Index, dir: Directory): Progress
    requires k <= |records|
  {
    if k == 0 then Progress(from, []) else Replayed(ReplayTo(records, k - 1, from, dir), records[k - 1], dir)
  }

  class Leader {
    var nblocks: nat
    var file: map<nat, PageImage>
    var log: seq<Added>

    function Value(): Index
      reads this
    {
      Index(nblocks, file, log)
    }

    constructor (from: Index)
      ensures Value() == from
    {
      nblocks, file, log := from.nblocks, from.file, from.log;
    }

    ghost function Progressed(blocks: BlockMap): Progress
      reads this, blocks
    {
      Progress(Value(), blocks.numbers)
    }

    // The worker's blocks since the last record numbered.
    method NumberBlocks(blocks: BlockMap, n: nat) returns (ok: bool)
      requires blocks.Valid()
      modifies this`nblocks, blocks
      ensures blocks.Valid() && (ok <==> |old(blocks.numbers)| <= n)
      ensures ok ==> Progressed(blocks) == Extended(old(Progressed(blocks)), n) && blocks.mapped == n
    {
      var next;
      ok, next := blocks.Extend(nblocks, n);
      if ok {
        nblocks := next;
        assert old(blocks.numbers) + Consecutive(old(nblocks), 0) == old(blocks.numbers);
      }
    }

    method ReplayPage(blocks: BlockMap, b: nat, page: PageImage) returns (ok: bool)
      requires blocks.Valid()
      modifies this`file
      ensures ok <==> b < blocks.mapped && PageOk(page, blocks.mapped)
      ensures ok ==> Progressed(blocks) == PutPage(old(Progressed(blocks)), b, page)
    {
      var q, at;
      ok, q := blocks.RenumberPage(page);
      at := blocks.Get(b);
      ok := ok && at.Some?;
      if ok {
        file := file[at.value := q];
      }
    }

    method ReplayEntry(blocks: BlockMap, e: EntryImage, dir: Directory) returns (ok: bool)
      requires blocks.Valid()
      modifies this`log, this`nblocks
      ensures ok <==> EntryOk(e, blocks.mapped)
      ensures ok ==> Progressed(blocks) == AddEntry(old(Progressed(blocks)), e, dir)
    {
      var f;
      ok, f := blocks.RenumberEntry(e);
      if ok {
        log := log + [Added(f, nblocks)];
        nblocks := nblocks + dir(log);
      }
    }

    // One record: its blocks numbered, then the page written in its place or
    // the entry given to the directory. Fails on a record that goes back or
    // names a block not handed out.
    method ReplayRecord(blocks: BlockMap, r: Record, dir: Directory) returns (ok: bool)
      requires blocks.Valid()
      modifies this, blocks
      ensures blocks.Valid() && (ok <==> RecordOk(old(Progressed(blocks)), r))
      ensures ok ==> Progressed(blocks) == Replayed(old(Progressed(blocks)), r, dir)
    {
      hide PageOk, EntryOk, PutPage, AddEntry, Extended;
      ok := NumberBlocks(blocks, r.nblocks);
      if ok {
        match r {
          case PageRecord(_, b, page) => ok := ReplayPage(blocks, b, page);
          case EntryRecord(_, e) => ok := ReplayEntry(blocks, e, dir);
          case EndRecord(_) =>
        }
      }
    }

    // A worker's column, record by record.
    method ReplayColumn(records: seq<Record>, dir: Directory) returns (ok: bool)
      modifies this
      ensures ok <==> RecordsOk(records, |records|, old(Value()), dir)
      ensures ok ==> Value() == ReplayTo(records, |records|, old(Value()), dir).index
    {
      hide RecordOk, Replayed;
      var blocks := new BlockMap();
      for k := 0 to |records|
        invariant fresh(blocks) && blocks.Valid() && RecordsOk(records, k, old(Value()), dir)
        invariant Progressed(blocks) == ReplayTo(records, k, old(Value()), dir)
      {
        ok := ReplayRecord(blocks, records[k], dir);
        if !ok {
          RecordsOkBefore(records, k + 1, |records|, old(Value()), dir);
          return;
        }
      }
      ok := true;
    }
  }

  ghost predicate RecordsOk(records: seq<Record>, k: nat, from: Index, dir: Directory)
    requires k <= |records|
  {
    k > 0 ==> RecordsOk(records, k - 1, from, dir) && RecordOk(ReplayTo(records, k - 1, from, dir), records[k - 1])
  }

  lemma {:induction false} RecordsOkBefore(records: seq<Record>, j: nat, k: nat, from: Index, dir: Directory)
    requires j <= k <= |records|
    ensures RecordsOk(records, k, from, dir) ==> RecordsOk(records, j, from, dir)
  {
    if j < k {
      RecordsOkBefore(records, j, k - 1, from, dir);
    }
  }

  /* ---------- parallel equals serial ---------- */

  lemma {:induction false} SamePrefix(a: seq<Record>, b: seq<Record>, k: nat, from: Index, dir: Directory)
    requires k <= |a| && k <= |b| && forall i :: 0 <= i < k ==> a[i] == b[i]
    ensures ReplayTo(a, k, from, dir) == ReplayTo(b, k, from, dir)
    ensures RecordsOk(a, k, from, dir) <==> RecordsOk(b, k, from, dir)
  {
    if k > 0 {
      SamePrefix(a, b, k - 1, from, dir);
    }
  }

  lemma NextRecord(records: seq<Record>, r: Record, from: Index, dir: Directory)
    ensures ReplayTo(records + [r], |records| + 1, from, dir) ==
            Replayed(ReplayTo(records, |records|, from, dir), r, dir)
    ensures RecordsOk(records + [r], |records| + 1, from, dir) <==>
            RecordsOk(records, |records|, from, dir) && RecordOk(ReplayTo(records, |records|, from, dir), r)
  {
    SamePrefix(records, records + [r], |records|, from, dir);
  }

  lemma ExtendedByOne(p: Progress, n: nat)
    requires |p.numbers| <= n
    ensures var q := Extended(p, n);
            |q.numbers| == n && Extended(q, n) == q &&
            Extended(p, n + 1) == Progress(q.index.(nblocks := q.index.nblocks + 1), q.numbers + [q.index.nblocks])
  {
    var q, r := Extended(p, n), Extended(p, n + 1);
    assert Consecutive(p.index.nblocks, 0) == [];
    assert r.numbers == q.numbers + [q.index.nblocks];
  }

  // The replay of the records, and then of blocks up to n, is at q.
  ghost predicate ReplayedTo(records: seq<Record>, n: nat, q: Progress, from: Index, dir: Directory) {
    var p := ReplayTo(records, |records|, from, dir);
    RecordsOk(records, |records|, from, dir) && |p.numbers| <= n && Extended(p, n) == q
  }

  // After any prefix of the actions, the replay of what was recorded of them
  // is where the serial build is, but for the blocks no record has named yet.
  lemma {:induction false} ReplayIsSerial(script: seq<Action>, i: nat, from: Index, dir: Directory)
    requires Sound(script) && i <= |script|
    ensures ReplayedTo(Stream(script, i), Allocs(script, i), Serial(script, i, from, dir), from, dir)
    decreases i
  {
    hide Sound, PageOk, EntryOk, PutPage, AddEntry, ReplayedTo;
    if i > 0 {
      ReplayIsSerial(script, i - 1, from, dir);
      SoundAt(script, i - 1);
      var records, n, q := Stream(script, i - 1), Allocs(script, i - 1), Serial(script, i - 1, from, dir);
      assert Stream(script, i) ==
             match script[i - 1]
             case Alloc => records
             case Put(b, page) => records + [PageRecord(n, b, page)]
             case Add(e) => records + [EntryRecord(n, e)];
      hide Stream;
      match script[i - 1] {
        case Alloc =>
          BlockIsStep(records, n, q, from, dir);
        case Put(b, page) => RecordIsStep(records, PageRecord(n, b, page), n, q, from, dir);
        case Add(e) => RecordIsStep(records, EntryRecord(n, e), n, q, from, dir);
      }
    } else {
      NothingReplayed(from, dir);
    }
  }

  lemma NothingReplayed(from: Index, dir: Directory)
    ensures ReplayedTo([], 0, Progress(from, []), from, dir)
  {
  }

  lemma SoundAt(script: seq<Action>, i: nat)
    requires Sound(script) && i < |script|
    ensures match script[i]
            case Alloc => true
            case Put(b, page) => b < Allocs(script, i) && PageOk(page, Allocs(script, i))
            case Add(e) => EntryOk(e, Allocs(script, i))
  {
  }

  lemma BlockIsStep(records: seq<Record>, n: nat, q: Progress, from: Index, dir: Directory)
    requires ReplayedTo(records, n, q, from, dir)
    ensures ReplayedTo(records, n + 1,
                       Progress(q.index.(nblocks := q.index.nblocks + 1), q.numbers + [q.index.nblocks]), from, dir)
  {
    ExtendedByOne(ReplayTo(records, |records|, from, dir), n);
    hide Extended, ReplayTo, RecordsOk;
  }

  lemma RecordIsStep(records: seq<Record>, r: Record, n: nat, q: Progress, from: Index, dir: Directory)
    requires ReplayedTo(records, n, q, from, dir) && r.nblocks == n
    requires match r
             case PageRecord(_, b, page) => b < n && PageOk(page, n)
             case EntryRecord(_, e) => EntryOk(e, n)
             case EndRecord(_) => true
    ensures ReplayedTo(records + [r], n,
                       match r
                       case PageRecord(_, b, page) => PutPage(q, b, page)
                       case EntryRecord(_, e) => AddEntry(q, e, dir)
                       case EndRecord(_) => q, from, dir)
  {
    hide Extended, PageOk, EntryOk, PutPage, AddEntry;
    NextRecord(records, r, from, dir);
    ExtendedByOne(ReplayTo(records, |records|, from, dir), n);
    ExtendedAlready(Replayed(ReplayTo(records, |records|, from, dir), r, dir), n);
    hide ReplayTo, RecordsOk;
  }

  lemma ExtendedAlready(p: Progress, n: nat)
    requires |p.numbers| == n
    ensures Extended(p, n) == p
  {
  }

  // The leader's replay of all a worker recorded leaves the index a serial
  // build of the column leaves: every block, link, owner and downlink.
  lemma ColumnIsSerial(script: seq<Action>, from: Index, dir: Directory)
    requires Sound(script)
    ensures var records := Stream(script, |script|) + [EndRecord(Allocs(script, |script|))];
            && RecordsOk(records, |records|, from, dir)
            && ReplayTo(records, |records|, from, dir) == Serial(script, |script|, from, dir)
  {
    ReplayIsSerial(script, |script|, from, dir);
    NextRecord(Stream(script, |script|), EndRecord(Allocs(script, |script|)), from, dir);
  }

  /* ---------- the whole index ---------- */

  ghost function SerialAll(columns: seq<seq<Action>>, k: nat, from: Index, dir: Directory): Index
    requires k <= |columns|
  {
    if k == 0 then from
    else Serial(columns[k - 1], |columns[k - 1]|, SerialAll(columns, k - 1, from, dir), dir).index
  }

  /* ---------- what the index then holds ---------- */

  // A column's blocks by their numbers in the index.
  ghost function NumbersOf(columns: seq<seq<Action>>, c: nat, from: Index, dir: Directory): seq<nat>
    requires c < |columns|
  {
    Serial(columns[c], |columns[c]|, SerialAll(columns, c, from, dir), dir).numbers
  }

  // Action k, of the first i, is the last to write its block.
  ghost predicate IsLastPut(script: seq<Action>, i: nat, k: nat) {
    && k < i <= |script| && script[k].Put?
    && forall j :: k < j < i && script[j].Put? ==> script[j].blk != script[k].blk
  }

  // The page lies at the number of its block, its links and downlinks the
  // numbers of the blocks they name.
  ghost predicate Lies(s: seq<nat>, b: nat, page: PageImage, file: map<nat, PageImage>) {
    b < |s| && s[b] in file && IsRenumbered(s, page, file[s[b]])
  }

  lemma StillRenumbered(s: seq<nat>, more: seq<nat>, p: PageImage, q: PageImage)
    requires IsRenumbered(s, p, q) && |s| <= |more| && forall i :: 0 <= i < |s| ==> more[i] == s[i]
    ensures IsRenumbered(more, p, q)
  {
  }

  lemma {:induction false} LastPutLies(script: seq<Action>, i: nat, k: nat, from: Index, dir: Directory)
    requires Sound(script) && IsLastPut(script, i, k)
    ensures var p := Serial(script, i, from, dir); Lies(p.numbers, script[k].blk, script[k].page, p.index.file)
    decreases i
  {
    hide PageOf, EntryOf, IsRenumbered, PageOk;
    var was := Serial(script, i - 1, from, dir);
    NumbersAscend(script, i - 1, from, dir);
    SoundAt(script, i - 1);
    if i == k + 1 {
      PageIsRenumbered(was.numbers, script[k].page);
    } else {
      LastPutLies(script, i - 1, k, from, dir);
      var now := Serial(script, i, from, dir);
      StillRenumbered(was.numbers, now.numbers, script[k].page, was.index.file[was.numbers[script[k].blk]]);
    }
  }

  // A column leaves the pages before its blocks as they were.
  lemma {:induction false} EarlierPagesStay(script: seq<Action>, i: nat, from: Index, dir: Directory)
    requires Sound(script) && i <= |script|
    ensures var file := Serial(script, i, from, dir).index.file;
            forall b :: b in from.file && b < from.nblocks ==> b in file && file[b] == from.file[b]
  {
    hide PageOf, EntryOf, PageOk;
    if i > 0 {
      EarlierPagesStay(script, i - 1, from, dir);
      NumbersAscend(script, i - 1, from, dir);
      SoundAt(script, i - 1);
    }
  }

  // Of every column, the last page put at a block is in the index.
  lemma {:induction false} PagesLie(columns: seq<seq<Action>>, n: nat, c: nat, k: nat, from: Index, dir: Directory)
    requires c < n <= |columns| && (forall d :: 0 <= d < |columns| ==> Sound(columns[d]))
    requires IsLastPut(columns[c], |columns[c]|, k)
    ensures Lies(NumbersOf(columns, c, from, dir), columns[c][k].blk, columns[c][k].page,
                 SerialAll(columns, n, from, dir).file)
    ensures forall b :: b in NumbersOf(columns, c, from, dir) ==> b < SerialAll(columns, n, from, dir).nblocks
    decreases n
  {
    hide Sound, IsRenumbered, Serial;
    var was := SerialAll(columns, n - 1, from, dir);
    NumbersAscend(columns[n - 1], |columns[n - 1]|, was, dir);
    if n == c + 1 {
      LastPutLies(columns[c], |columns[c]|, k, was, dir);
    } else {
      PagesLie(columns, n - 1, c, k, from, dir);
      EarlierPagesStay(columns[n - 1], |columns[n - 1]|, was, dir);
      var numbers := NumbersOf(columns, c, from, dir);
      assert numbers[columns[c][k].blk] in numbers;
    }
  }

  ghost function Adds(script: seq<Action>, i: nat): nat
    requires i <= |script|
  {
    if i == 0 then 0 else Adds(script, i - 1) + if script[i - 1].Add? then 1 else 0
  }

  // The entry of action k is in the directory's log at its turn, with the
  // blocks it names by their numbers.
  ghost predicate Logged(s: seq<nat>, at: nat, e: EntryImage, log: seq<Added>) {
    at < |log| && IsRenumberedEntry(s, e, log[at].entry)
  }

  lemma StillRenumberedEntry(s: seq<nat>, more: seq<nat>, e: EntryImage, f: EntryImage)
    requires IsRenumberedEntry(s, e, f) && |s| <= |more| && forall i :: 0 <= i < |s| ==> more[i] == s[i]
    ensures IsRenumberedEntry(more, e, f)
  {
  }

  lemma {:induction false} EntryIsLogged(script: seq<Action>, i: nat, k: nat, from: Index, dir: Directory)
    requires Sound(script) && k < i <= |script| && script[k].Add?
    ensures var p := Serial(script, i, from, dir);
            Logged(p.numbers, |from.log| + Adds(script, k), script[k].entry, p.index.log)
    decreases i
  {
    hide PageOf, EntryOf, IsRenumberedEntry, EntryOk;
    var was := Serial(script, i - 1, from, dir);
    NumbersAscend(script, i - 1, from, dir);
    LogGrows(script, i - 1, from, dir);
    SoundAt(script, i - 1);
    if i == k + 1 {
      EntryIsRenumbered(was.numbers, script[k].entry);
    } else {
      EntryIsLogged(script, i - 1, k, from, dir);
      var now, at := Serial(script, i, from, dir), |from.log| + Adds(script, k);
      StillRenumberedEntry(was.numbers, now.numbers, script[k].entry, was.index.log[at].entry);
    }
  }

  lemma {:induction false} LogGrows(script: seq<Action>, i: nat, from: Index, dir: Directory)
    requires i <= |script|
    ensures var log := Serial(script, i, from, dir).index.log;
            |log| == |from.log| + Adds(script, i) && log[..|from.log|] == from.log
  {
    hide EntryOf;
    if i > 0 {
      LogGrows(script, i - 1, from, dir);
    }
  }

  // Of every column, each entry is in the directory's log, at its place.
  lemma {:induction false} EntriesAreLogged(columns: seq<seq<Action>>, n: nat, c: nat, k: nat, from: Index,
                                            dir: Directory)
    requires c < n <= |columns| && (forall d :: 0 <= d < |columns| ==> Sound(columns[d]))
    requires k < |columns[c]| && columns[c][k].Add?
    ensures Logged(NumbersOf(columns, c, from, dir), |SerialAll(columns, c, from, dir).log| + Adds(columns[c], k),
                   columns[c][k].entry, SerialAll(columns, n, from, dir).log)
    decreases n
  {
    hide Sound, IsRenumberedEntry, Serial;
    var was := SerialAll(columns, n - 1, from, dir);
    if n == c + 1 {
      EntryIsLogged(columns[c], |columns[c]|, k, was, dir);
    } else {
      EntriesAreLogged(columns, n - 1, c, k, from, dir);
      LogGrows(columns[n - 1], |columns[n - 1]|, was, dir);
      var now := SerialAll(columns, n, from, dir);
      assert forall a :: 0 <= a < |was.log| ==> now.log[a] == now.log[..|was.log|][a];
    }
  }

  // A column the leader writes itself, action by action.
  method WriteOwn(leader: Leader, script: seq<Action>, dir: Directory)
    requires Sound(script)
    modifies leader
    ensures leader.Value() == Serial(script, |script|, old(leader.Value()), dir).index
  {
    hide Sound, PageOf, EntryOf;
    var numbers: seq<nat> := [];
    for i := 0 to |script|
      invariant Progress(leader.Value(), numbers) == Serial(script, i, old(leader.Value()), dir)
    {
      numbers := WriteAction(leader, script[i], numbers, dir);
    }
  }

  method WriteAction(leader: Leader, a: Action, numbers0: seq<nat>, dir: Directory) returns (numbers: seq<nat>)
    modifies leader
    ensures Progress(leader.Value(), numbers) ==
            (var p := old(Progress(leader.Value(), numbers0));
             match a
             case Alloc => Progress(p.index.(nblocks := p.index.nblocks + 1), p.numbers + [p.index.nblocks])
             case Put(b, page) => PutPage(p, b, page)
             case Add(e) => AddEntry(p, e, dir))
  {
    hide PageOf, EntryOf;
    numbers := numbers0;
    match a {
      case Alloc =>
        numbers := numbers + [leader.nblocks];
        leader.nblocks := leader.nblocks + 1;
      case Put(b, page) =>
        leader.file := leader.file[NumberOf(numbers, b) := PageOf(numbers, page)];
      case Add(e) =>
        leader.log := leader.log + [Added(EntryOf(numbers, e), leader.nblocks)];
        leader.nblocks := leader.nblocks + dir(leader.log);
    }
  }

  // A column a worker writes and the leader replays.
  method WriteByWorker(leader: Leader, script: seq<Action>, dir: Directory)
    requires Sound(script)
    modifies leader
    ensures leader.Value() == Serial(script, |script|, old(leader.Value()), dir).index
  {
    hide Sound, Serial, Stream, ReplayTo, RecordsOk;
    ColumnIsSerial(script, leader.Value(), dir);
    var records := WriteColumn(script);
    var ok := leader.ReplayColumn(records, dir);
  }

  // Whoever writes which columns, the index is the serial build's.
  method BuildIndex(columns: seq<seq<Action>>, byWorker: seq<bool>, from: Index, dir: Directory)
    returns (leader: Leader)
    requires |byWorker| == |columns| && forall c :: 0 <= c < |columns| ==> Sound(columns[c])
    ensures leader.Value() == SerialAll(columns, |columns|, from, dir)
    ensures forall c: nat, k: nat :: c < |columns| && IsLastPut(columns[c], |columns[c]|, k) ==>
              Lies(NumbersOf(columns, c, from, dir), columns[c][k].blk, columns[c][k].page, leader.file)
    ensures forall c: nat, k: nat :: c < |columns| && k < |columns[c]| && columns[c][k].Add? ==>
              Logged(NumbersOf(columns, c, from, dir), |SerialAll(columns, c, from, dir).log| + Adds(columns[c], k),
                     columns[c][k].entry, leader.log)
  {
    hide Sound, Serial, Lies, Logged;
    leader := new Leader(from);
    for c := 0 to |columns|
      invariant fresh(leader) && leader.Value() == SerialAll(columns, c, from, dir)
    {
      if byWorker[c] {
        WriteByWorker(leader, columns[c], dir);
      } else {
        WriteOwn(leader, columns[c], dir);
      }
    }
    forall c: nat, k: nat | c < |columns| && IsLastPut(columns[c], |columns[c]|, k)
      ensures Lies(NumbersOf(columns, c, from, dir), columns[c][k].blk, columns[c][k].page, leader.file)
    {
      PagesLie(columns, |columns|, c, k, from, dir);
    }
    forall c: nat, k: nat | c < |columns| && k < |columns[c]| && columns[c][k].Add?
      ensures Logged(NumbersOf(columns, c, from, dir), |SerialAll(columns, c, from, dir).log| + Adds(columns[c], k),
                     columns[c][k].entry, leader.log)
    {
      EntriesAreLogged(columns, |columns|, c, k, from, dir);
    }
  }
}
