/**
 * ma_ug_seq: spell out the sequence of every unitig from the reads file.
 * First each read claims an interval of one unitig's buffer (its unitig,
 * strand, offset and length); then every record of the reads file whose
 * read holds a non-empty interval is copied into it, reverse-complemented
 * when the read sits on the reverse strand.
 */
module UnitigSeq {
  import opened StringGraph
  import opened Unitigs
  import opened UnitigGraph

  /** 'N', the base an unknown position holds. */
  const BaseN: byte := 78

  /** comp_tab: the complement of each 7-bit character. Every entry the table
      does not list here maps a character to itself. */
  function CompTab(c: byte): byte
    requires c < 128
  {
    match c
      case 65 => 84  // A -> T
      case 66 => 86  // B -> V
      case 67 => 71  // C -> G
      case 68 => 72  // D -> H
      case 71 => 67  // G -> C
      case 72 => 68  // H -> D
      case 75 => 77  // K -> M
      case 77 => 75  // M -> K
      case 82 => 89  // R -> Y
      case 84 => 65  // T -> A
      case 85 => 65  // U -> A
      case 86 => 66  // V -> B
      case 89 => 82  // Y -> R
      case 96 => 64  // ` -> @
      case 97 => 116  // a -> t
      case 98 => 118  // b -> v
      case 99 => 103  // c -> g
      case 100 => 104  // d -> h
      case 103 => 99  // g -> c
      case 104 => 100  // h -> d
      case 107 => 109  // k -> m
      case 109 => 107  // m -> k
      case 114 => 121  // r -> y
      case 116 => 97  // t -> a
      case 117 => 97  // u -> a
      case 118 => 98  // v -> b
      case 121 => 114  // y -> r
      case _ => c
  }

  /** The byte written for base c of a reverse-strand read: its complement,
      or 'N' for bytes outside the table. */
  function Complement(c: byte): byte {
    if c >= 128 then BaseN else CompTab(c)
  }

  /** comp_tab swaps A and T, C and G, in either case, and keeps N. */
  lemma ComplementBases()
    ensures Complement('A' as byte) == 'T' as byte && Complement('T' as byte) == 'A' as byte
    ensures Complement('C' as byte) == 'G' as byte && Complement('G' as byte) == 'C' as byte
    ensures Complement('a' as byte) == 't' as byte && Complement('t' as byte) == 'a' as byte
    ensures Complement('c' as byte) == 'g' as byte && Complement('g' as byte) == 'c' as byte
    ensures Complement('N' as byte) == BaseN && Complement('n' as byte) == 'n' as byte
  {
  }

  /** comp_tab is its own inverse on every 7-bit character except three:
      U and u go to A and a, and the backquote goes to '@'. */
  lemma ComplementInvolution(c: byte)
    requires c < 128 && c != 'U' as byte && c != 'u' as byte && c != '`' as byte
    ensures Complement(Complement(c)) == c
  {
  }

  lemma ComplementNotInvolution()
    ensures Complement(Complement('U' as byte)) == 'T' as byte
    ensures Complement(Complement('`' as byte)) == '@' as byte
  {
  }

  /** utg_intv_t: the interval one read claims, its unitig, its strand
      (1 for reverse), its offset in the unitig sequence and its length. */
  datatype Intv = Intv(utg: nat, ori: nat, start: int, len: int)

  /** A read no member claims, as the zeroed table holds it. */
  const NoIntv: Intv := Intv(0, 0, 0, 0)

  /** The read of a member (its vertex without the strand bit) and its strand. */
  function Read(m: Member): nat { m.0 / 2 }
  function Ori(m: Member): nat { m.0 % 2 }

  /** The interval member j of unitig i claims: it starts after the lengths of
      the members before it and spans its own length. */
  function MemberIntv(us: seq<Utg>, i: nat, j: nat): (t: Intv)
    requires i < |us| && j < |us[i].a|
    ensures t.utg == i && t.ori == Ori(us[i].a[j]) && t.len == us[i].a[j].1
    ensures t.start + t.len == SumLens(us[i].a[..j + 1])
  {
    assert us[i].a[..j + 1] == us[i].a[..j] + [us[i].a[j]];
    SumLensSnoc(us[i].a[..j], us[i].a[j]);
    Intv(i, Ori(us[i].a[j]), SumLens(us[i].a[..j]), us[i].a[j].1)
  }

  /** The unitigs ma_ug_gen hands over: members name reads of the table, carry
      unsigned lengths, and add up to the unitig's length. */
  predicate MembersOk(us: seq<Utg>, nSeq: nat) {
    (forall i, j :: 0 <= i < |us| && 0 <= j < |us[i].a| ==> Read(us[i].a[j]) < nSeq && us[i].a[j].1 >= 0)
    && forall i :: 0 <= i < |us| ==> us[i].len == SumLens(us[i].a) && us[i].len >= 0
  }

  /** Member (i1, j1) comes before member (i2, j2) in the layout loop. */
  predicate Before(i1: int, j1: int, i2: int, j2: int) {
    i1 < i2 || (i1 == i2 && j1 < j2)
  }

  /** The assertion of the layout loop, over the whole loop: a read claimed
      again was claimed before only with length 0. */
  predicate ClaimsOnce(us: seq<Utg>) {
    forall i1, j1, i2, j2 ::
      0 <= i1 < |us| && 0 <= j1 < |us[i1].a| && 0 <= i2 < |us| && 0 <= j2 < |us[i2].a|
      && Before(i1, j1, i2, j2) && Read(us[i1].a[j1]) == Read(us[i2].a[j2])
      ==> us[i1].a[j1].1 == 0
  }

  /** Member (i', j') of unitig i' is among those the loop has reached at (i, j). */
  predicate Processed(us: seq<Utg>, i': int, j': int, i: int, j: int) {
    0 <= i' < |us| && 0 <= j' < |us[i'].a| && Before(i', j', i, j)
  }

  /** Read r's entry t is the interval of member j of t's unitig. */
  predicate ClaimedBy(us: seq<Utg>, r: int, t: Intv, j: int) {
    t.utg < |us| && 0 <= j < |us[t.utg].a| && Read(us[t.utg].a[j]) == r && t == MemberIntv(us, t.utg, j)
  }

  /** The table after the members up to (i, j): every member reached with a
      non-zero length holds its read's entry, and every entry with a non-zero
      length is the interval of a member reached. */
  ghost predicate LayoutInv(us: seq<Utg>, i: nat, j: nat, tmp: seq<Intv>) {
    (forall i', j' :: Processed(us, i', j', i, j) && us[i'].a[j'].1 != 0 ==>
      Read(us[i'].a[j']) < |tmp| && tmp[Read(us[i'].a[j'])] == MemberIntv(us, i', j'))
    && forall r :: 0 <= r < |tmp| && tmp[r].len != 0 ==>
      exists j' :: ClaimedBy(us, r, tmp[r], j') && Processed(us, tmp[r].utg, j', i, j)
  }

  /** The table after the whole loop. */
  ghost predicate LaidOut(us: seq<Utg>, tmp: seq<Intv>) {
    (forall i, j :: 0 <= i < |us| && 0 <= j < |us[i].a| && us[i].a[j].1 != 0 ==>
      Read(us[i].a[j]) < |tmp| && tmp[Read(us[i].a[j])] == MemberIntv(us, i, j))
    && forall r :: 0 <= r < |tmp| && tmp[r].len != 0 ==> exists j :: ClaimedBy(us, r, tmp[r], j)
  }

  /** A read reached again has an empty slot, as the layout loop asserts. */
  lemma LayoutEmpty(us: seq<Utg>, i: nat, j: nat, tmp: seq<Intv>)
    requires ClaimsOnce(us) && i < |us| && j < |us[i].a| && LayoutInv(us, i, j, tmp)
    requires Read(us[i].a[j]) < |tmp|
    ensures tmp[Read(us[i].a[j])].len == 0
  {
  }

  /** Claiming member (i, j) overwrites no slot a member reached before holds. */
  lemma LayoutKeep(us: seq<Utg>, i: nat, j: nat, tmp: seq<Intv>)
    requires ClaimsOnce(us) && i < |us| && j < |us[i].a| && LayoutInv(us, i, j, tmp)
    requires Read(us[i].a[j]) < |tmp|
    ensures var tmp' := tmp[Read(us[i].a[j]) := MemberIntv(us, i, j)];
      forall i', j' :: Processed(us, i', j', i, j + 1) && us[i'].a[j'].1 != 0 ==>
        Read(us[i'].a[j']) < |tmp'| && tmp'[Read(us[i'].a[j'])] == MemberIntv(us, i', j')
  {
    var r := Read(us[i].a[j]);
    forall i', j' | Processed(us, i', j', i, j) && us[i'].a[j'].1 != 0
      ensures Read(us[i'].a[j']) != r
    {
    }
  }

  /** Every non-empty slot after claiming member (i, j) belongs to a member reached. */
  lemma LayoutClaimed(us: seq<Utg>, i: nat, j: nat, tmp: seq<Intv>)
    requires i < |us| && j < |us[i].a| && LayoutInv(us, i, j, tmp)
    requires Read(us[i].a[j]) < |tmp|
    ensures var tmp' := tmp[Read(us[i].a[j]) := MemberIntv(us, i, j)];
      forall r :: 0 <= r < |tmp'| && tmp'[r].len != 0 ==>
        exists j' :: ClaimedBy(us, r, tmp'[r], j') && Processed(us, tmp'[r].utg, j', i, j + 1)
  {
    var r := Read(us[i].a[j]);
    var tmp' := tmp[r := MemberIntv(us, i, j)];
    forall r2 | 0 <= r2 < |tmp'| && tmp'[r2].len != 0
      ensures exists j' :: ClaimedBy(us, r2, tmp'[r2], j') && Processed(us, tmp'[r2].utg, j', i, j + 1)
    {
      if r2 == r {
        assert ClaimedBy(us, r2, tmp'[r2], j) && Processed(us, tmp'[r2].utg, j, i, j + 1);
      } else {
        var j' :| ClaimedBy(us, r2, tmp[r2], j') && Processed(us, tmp[r2].utg, j', i, j);
        assert Processed(us, tmp'[r2].utg, j', i, j + 1);
      }
    }
  }

  /** One member of the layout loop: its read's slot is still empty, and
      claiming it keeps the invariant. */
  lemma LayoutStep(us: seq<Utg>, nSeq: nat, i: nat, j: nat, tmp: seq<Intv>)
    requires MembersOk(us, nSeq) && ClaimsOnce(us) && |tmp| == nSeq
    requires i < |us| && j < |us[i].a| && LayoutInv(us, i, j, tmp)
    ensures Read(us[i].a[j]) < nSeq && tmp[Read(us[i].a[j])].len == 0
    ensures LayoutInv(us, i, j + 1, tmp[Read(us[i].a[j]) := MemberIntv(us, i, j)])
  {
    LayoutEmpty(us, i, j, tmp);
    LayoutKeep(us, i, j, tmp);
    LayoutClaimed(us, i, j, tmp);
  }

  /** Finishing unitig i is starting unitig i + 1. */
  lemma LayoutNext(us: seq<Utg>, i: nat, tmp: seq<Intv>)
    requires i < |us| && LayoutInv(us, i, |us[i].a|, tmp)
    ensures LayoutInv(us, i + 1, 0, tmp)
  {
    forall r | 0 <= r < |tmp| && tmp[r].len != 0
      ensures exists j' :: ClaimedBy(us, r, tmp[r], j') && Processed(us, tmp[r].utg, j', i + 1, 0)
    {
      var j' :| ClaimedBy(us, r, tmp[r], j') && Processed(us, tmp[r].utg, j', i, |us[i].a|);
      assert Processed(us, tmp[r].utg, j', i + 1, 0);
    }
  }

  /** After the last unitig every member has been reached. */
  lemma LayoutDone(us: seq<Utg>, tmp: seq<Intv>)
    requires LayoutInv(us, |us|, 0, tmp)
    ensures LaidOut(us, tmp)
  {
    forall i, j | 0 <= i < |us| && 0 <= j < |us[i].a| && us[i].a[j].1 != 0
      ensures Read(us[i].a[j]) < |tmp| && tmp[Read(us[i].a[j])] == MemberIntv(us, i, j)
    {
      assert Processed(us, i, j, |us|, 0);
    }
  }

  /** A fresh unitig buffer: len 'N's and the terminating NUL. */
  function Blank(len: int): (s: seq<byte>)
    requires len >= 0
    ensures |s| == len + 1 && s[len] == 0
    ensures forall k :: 0 <= k < len ==> s[k] == BaseN
  {
    seq(len, _ => BaseN) + [0]
  }

  /** The layout loop of ma_ug_seq: give every unitig a blank buffer and every
      read claimed by a member the interval of its last claim. */
  method LayoutIntervals(us: seq<Utg>, nSeq: nat) returns (us': seq<Utg>, tmp: seq<Intv>)
    requires MembersOk(us, nSeq) && ClaimsOnce(us)
    ensures |tmp| == nSeq && LaidOut(us, tmp)
    ensures us' == Blanked(us)
  {
    tmp := seq(nSeq, _ => NoIntv);
    us' := us;
    for i := 0 to |us|
      invariant |us'| == |us| && |tmp| == nSeq && LayoutInv(us, i, 0, tmp)
      invariant forall k :: 0 <= k < i ==> us'[k] == us[k].(s := Blank(us[k].len))
    {
      us' := us'[i := us[i].(s := Blank(us[i].len))];
      var l := 0;
      for j := 0 to |us[i].a|
        invariant |tmp| == nSeq && LayoutInv(us, i, j, tmp) && l == SumLens(us[i].a[..j])
      {
        LayoutStep(us, nSeq, i, j, tmp);
        var m := us[i].a[j];
        assert tmp[Read(m)].len == 0;
        tmp := tmp[Read(m) := Intv(i, Ori(m), l, m.1)];
        l := l + m.1;
      }
      LayoutNext(us, i, tmp);
    }
    LayoutDone(us, tmp);
  }

  /** Every unitig with a fresh buffer of its length. */
  function Blanked(us: seq<Utg>): (us': seq<Utg>)
    requires forall i :: 0 <= i < |us| ==> us[i].len >= 0
    ensures |us'| == |us| && forall i :: 0 <= i < |us| ==> us'[i] == us[i].(s := Blank(us[i].len))
  {
    seq(|us|, i requires 0 <= i < |us| => us[i].(s := Blank(us[i].len)))
  }

  /** A record of the reads file: a name and its bases. */
  datatype Record = Record(name: seq<char>, bases: seq<byte>)

  /** sd_get: the id of a read name, -1 for a name the dictionary lacks. */
  function SeqId(dict: map<seq<char>, nat>, name: seq<char>): int {
    if name in dict then dict[name] else -1
  }

  /** The dictionary names only reads of the table. */
  predicate IdsIn(dict: map<seq<char>, nat>, nSeq: nat) {
    forall name :: name in dict ==> dict[name] < nSeq
  }

  /** The trimming interval of read id lies inside its record. */
  predicate TrimOk(sub: Option<seq<Sub>>, id: nat, bases: seq<byte>) {
    sub.Some? ==> id < |sub.value| && 0 <= sub.value[id].s <= sub.value[id].e <= |bases|
  }

  /** A record's bases, cut to the read's sub-interval when there is one. */
  function Trimmed(sub: Option<seq<Sub>>, id: nat, bases: seq<byte>): (b: seq<byte>)
    requires TrimOk(sub, id, bases)
    ensures sub.None? ==> b == bases
    ensures sub.Some? ==> (|b| == sub.value[id].e - sub.value[id].s
      && forall k :: 0 <= k < |b| ==> b[k] == bases[sub.value[id].s + k])
  {
    if sub.Some? then bases[sub.value[id].s..sub.value[id].e] else bases
  }

  /** What read interval t receives from bases b: the first t.len bases on the
      forward strand, the complements of the last t.len bases, last first, on
      the reverse strand. */
  function Piece(t: Intv, b: seq<byte>): (p: seq<byte>)
    requires 0 <= t.len <= |b|
    ensures |p| == t.len
  {
    if t.ori == 0 then b[..t.len]
    else seq(t.len, k requires 0 <= k < t.len => Complement(b[|b| - 1 - k]))
  }

  /** On the reverse strand a read that fills its interval is reverse-complemented. */
  lemma PieceReverse(t: Intv, b: seq<byte>)
    requires t.ori != 0 && t.len == |b|
    ensures forall k :: 0 <= k < |b| ==> Piece(t, b)[|b| - 1 - k] == Complement(b[k])
  {
  }

  /** s with the positions from start on overwritten by p. */
  function WriteAt(s: seq<byte>, start: int, p: seq<byte>): (s': seq<byte>)
    requires 0 <= start && start + |p| <= |s|
    ensures |s'| == |s|
    ensures forall k :: 0 <= k < |s| ==> s'[k] == if start <= k < start + |p| then p[k - start] else s[k]
  {
    seq(|s|, k requires 0 <= k < |s| => if start <= k < start + |p| then p[k - start] else s[k])
  }

  /** The copy loops of one record: write the piece of bases b that interval t
      receives into the unitig buffer s, one position at a time. */
  method CopyPiece(s: seq<byte>, t: Intv, b: seq<byte>) returns (s': seq<byte>)
    requires 0 <= t.start && 0 <= t.len <= |b| && t.start + t.len <= |s|
    ensures s' == WriteAt(s, t.start, Piece(t, b))
  {
    s' := s;
    if t.ori == 0 {
      for i := 0 to t.len
        invariant |s'| == |s|
        invariant forall k :: 0 <= k < |s| ==> s'[k] == if t.start <= k < t.start + i then b[k - t.start] else s[k]
      {
        s' := s'[t.start + i := b[i]];
      }
    } else {
      for i := 0 to t.len
        invariant |s'| == |s|
        invariant forall k :: 0 <= k < |s| ==>
          s'[k] == if t.start <= k < t.start + i then Complement(b[|b| - 1 - (k - t.start)]) else s[k]
      {
        var c := b[|b| - 1 - i];
        s' := s'[t.start + i := if c >= 128 then BaseN else CompTab(c)];
      }
    }
  }

  /** Every non-empty interval fits in its unitig's sequence. */
  predicate IntervalsFit(us: seq<Utg>, tmp: seq<Intv>) {
    forall r :: 0 <= r < |tmp| && tmp[r].len > 0 ==>
      tmp[r].utg < |us| && 0 <= tmp[r].start && tmp[r].start + tmp[r].len <= us[tmp[r].utg].len
      && us[tmp[r].utg].len < |us[tmp[r].utg].s|
  }

  /** Record k is copied: its name is known and its read's interval is not empty. */
  predicate Copied(tmp: seq<Intv>, dict: map<seq<char>, nat>, rec: Record)
    requires IdsIn(dict, |tmp|)
  {
    rec.name in dict && tmp[dict[rec.name]].len != 0
  }

  /** Every record that is copied can be cut to its sub-interval and then
      covers its read's interval. */
  predicate RecordsFit(tmp: seq<Intv>, dict: map<seq<char>, nat>, sub: Option<seq<Sub>>, recs: seq<Record>)
    requires IdsIn(dict, |tmp|)
  {
    forall k :: 0 <= k < |recs| && Copied(tmp, dict, recs[k]) ==>
      TrimOk(sub, dict[recs[k].name], recs[k].bases)
      && tmp[dict[recs[k].name]].len <= |Trimmed(sub, dict[recs[k].name], recs[k].bases)|
  }

  /** The inputs of the record loop that do not change while it runs. */
  predicate RecordsOk(tmp: seq<Intv>, dict: map<seq<char>, nat>, sub: Option<seq<Sub>>, recs: seq<Record>) {
    (forall r :: 0 <= r < |tmp| ==> tmp[r].len >= 0)
    && IdsIn(dict, |tmp|) && RecordsFit(tmp, dict, sub, recs)
  }

  predicate CopyOk(us: seq<Utg>, tmp: seq<Intv>, dict: map<seq<char>, nat>, sub: Option<seq<Sub>>, recs: seq<Record>) {
    IntervalsFit(us, tmp) && RecordsOk(tmp, dict, sub, recs)
  }

  /** The unitig sequences after one record. */
  function CopyRecord(us: seq<Utg>, tmp: seq<Intv>, dict: map<seq<char>, nat>, sub: Option<seq<Sub>>,
                      recs: seq<Record>, k: nat): (us': seq<Utg>)
    requires CopyOk(us, tmp, dict, sub, recs) && k < |recs|
    ensures |us'| == |us| && IntervalsFit(us', tmp)
    ensures forall i :: 0 <= i < |us| ==> us'[i] == us[i].(s := us'[i].s) && |us'[i].s| == |us[i].s|
  {
    var rec := recs[k];
    if !Copied(tmp, dict, rec) then us
    else
      var id := dict[rec.name];
      var t := tmp[id];
      us[t.utg := us[t.utg].(s := WriteAt(us[t.utg].s, t.start, Piece(t, Trimmed(sub, id, rec.bases))))]
  }

  /** The unitig sequences after the first n records. */
  function CopyRecords(us: seq<Utg>, tmp: seq<Intv>, dict: map<seq<char>, nat>, sub: Option<seq<Sub>>,
                       recs: seq<Record>, n: nat): (us': seq<Utg>)
    requires CopyOk(us, tmp, dict, sub, recs) && n <= |recs|
    ensures |us'| == |us| && IntervalsFit(us', tmp)
    ensures forall i :: 0 <= i < |us| ==> us'[i] == us[i].(s := us'[i].s) && |us'[i].s| == |us[i].s|
    decreases n
  {
    if n == 0 then us
    else CopyRecord(CopyRecords(us, tmp, dict, sub, recs, n - 1), tmp, dict, sub, recs, n - 1)
  }

  /** The record loop of ma_ug_seq. */
  method CopyAll(us: seq<Utg>, tmp: seq<Intv>, dict: map<seq<char>, nat>, sub: Option<seq<Sub>>,
                 recs: seq<Record>) returns (us': seq<Utg>)
    requires CopyOk(us, tmp, dict, sub, recs)
    ensures us' == CopyRecords(us, tmp, dict, sub, recs, |recs|)
  {
    us' := us;
    for k := 0 to |recs|
      invariant us' == CopyRecords(us, tmp, dict, sub, recs, k)
    {
      us' := CopyOne(us', tmp, dict, sub, recs, k);
    }
  }

  /** One pass of the record loop: look the record's name up, skip it when
      the name is unknown or its read claims nothing, else copy its piece. */
  method CopyOne(us: seq<Utg>, tmp: seq<Intv>, dict: map<seq<char>, nat>, sub: Option<seq<Sub>>,
                 recs: seq<Record>, k: nat) returns (us': seq<Utg>)
    requires CopyOk(us, tmp, dict, sub, recs) && k < |recs|
    ensures us' == CopyRecord(us, tmp, dict, sub, recs, k)
  {
    us' := us;
    var id := SeqId(dict, recs[k].name);
    if id < 0 || tmp[id].len == 0 {
      return;
    }
    var t := tmp[id];
    var b := Trimmed(sub, id, recs[k].bases);
    var s := CopyPiece(us[t.utg].s, t, b);
    us' := us[t.utg := us[t.utg].(s := s)];
  }

  /** A record names read r. */
  predicate Names(dict: map<seq<char>, nat>, rec: Record, r: int) {
    rec.name in dict && dict[rec.name] == r
  }

  /** The non-empty intervals of two different reads in one unitig do not overlap. */
  predicate Disjoint(tmp: seq<Intv>) {
    forall r1, r2 ::
      (0 <= r1 < |tmp| && 0 <= r2 < |tmp| && r1 != r2
       && tmp[r1].len > 0 && tmp[r2].len > 0 && tmp[r1].utg == tmp[r2].utg)
      ==> tmp[r1].start + tmp[r1].len <= tmp[r2].start || tmp[r2].start + tmp[r2].len <= tmp[r1].start
  }

  /** The non-empty interval of read r overlaps no other read's interval in its unitig. */
  predicate DisjointFrom(tmp: seq<Intv>, r: int)
    requires 0 <= r < |tmp|
  {
    forall r2 ::
      (0 <= r2 < |tmp| && r2 != r && tmp[r].len > 0 && tmp[r2].len > 0 && tmp[r].utg == tmp[r2].utg)
      ==> tmp[r].start + tmp[r].len <= tmp[r2].start || tmp[r2].start + tmp[r2].len <= tmp[r].start
  }

  lemma DisjointAt(tmp: seq<Intv>, r: int)
    requires Disjoint(tmp) && 0 <= r < |tmp|
    ensures DisjointFrom(tmp, r)
  {
  }

  /** With lengths that are never negative, a longer prefix sums to more. */
  lemma {:induction false} SumLensMono(a: seq<Member>, j: nat, j': nat)
    requires j <= j' <= |a| && forall k :: 0 <= k < |a| ==> a[k].1 >= 0
    ensures SumLens(a[..j]) <= SumLens(a[..j'])
    decreases j' - j
  {
    if j < j' {
      SumLensMono(a, j, j' - 1);
      assert a[..j'] == a[..j' - 1] + [a[j' - 1]];
      SumLensSnoc(a[..j' - 1], a[j' - 1]);
    }
  }

  /** Every interval of the table fits in the blank buffer of its unitig. */
  lemma LayoutFits(us: seq<Utg>, nSeq: nat, tmp: seq<Intv>)
    requires MembersOk(us, nSeq) && LaidOut(us, tmp)
    ensures forall r :: 0 <= r < |tmp| ==> tmp[r].len >= 0
    ensures IntervalsFit(Blanked(us), tmp)
  {
    forall r | 0 <= r < |tmp| && tmp[r].len != 0
      ensures tmp[r].len > 0 && tmp[r].utg < |us| && 0 <= tmp[r].start
        && tmp[r].start + tmp[r].len <= us[tmp[r].utg].len
    {
      var j :| ClaimedBy(us, r, tmp[r], j);
      var a := us[tmp[r].utg].a;
      SumLensMono(a, 0, j);
      SumLensMono(a, j + 1, |a|);
      assert a[..|a|] == a;
    }
  }

  /** Two members of one unitig with different reads claim intervals that do not overlap. */
  lemma ClaimsApart(us: seq<Utg>, nSeq: nat, r1: int, t1: Intv, j1: int, r2: int, t2: Intv, j2: int)
    requires MembersOk(us, nSeq) && r1 != r2 && t1.utg == t2.utg
    requires ClaimedBy(us, r1, t1, j1) && ClaimedBy(us, r2, t2, j2)
    ensures t1.start + t1.len <= t2.start || t2.start + t2.len <= t1.start
  {
    var a := us[t1.utg].a;
    if j1 < j2 {
      SumLensMono(a, j1 + 1, j2);
    } else {
      SumLensMono(a, j2 + 1, j1);
    }
  }

  /** Different reads claim different members, whose intervals do not overlap. */
  lemma LayoutDisjoint(us: seq<Utg>, nSeq: nat, tmp: seq<Intv>)
    requires MembersOk(us, nSeq) && LaidOut(us, tmp)
    ensures Disjoint(tmp)
  {
    forall r1, r2 | 0 <= r1 < |tmp| && 0 <= r2 < |tmp| && r1 != r2
      && tmp[r1].len > 0 && tmp[r2].len > 0 && tmp[r1].utg == tmp[r2].utg
      ensures tmp[r1].start + tmp[r1].len <= tmp[r2].start || tmp[r2].start + tmp[r2].len <= tmp[r1].start
    {
      var j1 :| ClaimedBy(us, r1, tmp[r1], j1);
      var j2 :| ClaimedBy(us, r2, tmp[r2], j2);
      ClaimsApart(us, nSeq, r1, tmp[r1], j1, r2, tmp[r2], j2);
    }
  }

  /** Writing a piece leaves a window beside it as it was. */
  lemma WriteBeside(s: seq<byte>, start: int, p: seq<byte>, a: int, len: nat)
    requires 0 <= start && start + |p| <= |s| && 0 <= a && a + len <= |s|
    requires a + len <= start || start + |p| <= a
    ensures WriteAt(s, start, p)[a..a + len] == s[a..a + len]
  {
  }

  /** A record that names read r writes its piece into r's interval. */
  lemma RecordWrites(us: seq<Utg>, tmp: seq<Intv>, dict: map<seq<char>, nat>,
                     sub: Option<seq<Sub>>, recs: seq<Record>, k: nat, r: nat)
    requires CopyOk(us, tmp, dict, sub, recs) && k < |recs|
    requires r < |tmp| && tmp[r].len > 0 && Names(dict, recs[k], r)
    ensures TrimOk(sub, r, recs[k].bases) && tmp[r].len <= |Trimmed(sub, r, recs[k].bases)|
    ensures CopyRecord(us, tmp, dict, sub, recs, k)[tmp[r].utg].s[tmp[r].start..tmp[r].start + tmp[r].len]
         == Piece(tmp[r], Trimmed(sub, r, recs[k].bases))
  {
    assert Copied(tmp, dict, recs[k]);
  }

  /** A record that names another read leaves r's interval as it was. */
  lemma RecordBeside(us: seq<Utg>, tmp: seq<Intv>, dict: map<seq<char>, nat>,
                     sub: Option<seq<Sub>>, recs: seq<Record>, k: nat, r: nat)
    requires CopyOk(us, tmp, dict, sub, recs) && k < |recs|
    requires r < |tmp| && tmp[r].len > 0 && DisjointFrom(tmp, r) && !Names(dict, recs[k], r)
    ensures CopyRecord(us, tmp, dict, sub, recs, k)[tmp[r].utg].s[tmp[r].start..tmp[r].start + tmp[r].len]
         == us[tmp[r].utg].s[tmp[r].start..tmp[r].start + tmp[r].len]
  {
    var rec := recs[k];
    var t := tmp[r];
    if Copied(tmp, dict, rec) {
      var t2 := tmp[dict[rec.name]];
      if t2.utg == t.utg {
        WriteBeside(us[t.utg].s, t2.start, Piece(t2, Trimmed(sub, dict[rec.name], rec.bases)), t.start, t.len);
      }
    }
  }

  /** The bytes of read r's interval in the unitig sequences. */
  function Slot(us: seq<Utg>, tmp: seq<Intv>, r: nat): (w: seq<byte>)
    requires IntervalsFit(us, tmp) && r < |tmp| && tmp[r].len > 0
    ensures |w| == tmp[r].len
  {
    us[tmp[r].utg].s[tmp[r].start..tmp[r].start + tmp[r].len]
  }

  /** The n-th record, when it names read r, leaves r's piece in place. */
  lemma CopyHere(us: seq<Utg>, tmp: seq<Intv>, dict: map<seq<char>, nat>,
                 sub: Option<seq<Sub>>, recs: seq<Record>, n: nat, r: nat)
    requires CopyOk(us, tmp, dict, sub, recs) && 0 < n <= |recs|
    requires r < |tmp| && tmp[r].len > 0 && Names(dict, recs[n - 1], r)
    ensures TrimOk(sub, r, recs[n - 1].bases) && tmp[r].len <= |Trimmed(sub, r, recs[n - 1].bases)|
    ensures Slot(CopyRecords(us, tmp, dict, sub, recs, n), tmp, r)
         == Piece(tmp[r], Trimmed(sub, r, recs[n - 1].bases))
  {
    var before := CopyRecords(us, tmp, dict, sub, recs, n - 1);
    assert CopyRecords(us, tmp, dict, sub, recs, n) == CopyRecord(before, tmp, dict, sub, recs, n - 1);
    RecordWrites(before, tmp, dict, sub, recs, n - 1, r);
  }

  /** The n-th record, when it names another read, keeps r's interval. */
  lemma CopyKeeps(us: seq<Utg>, tmp: seq<Intv>, dict: map<seq<char>, nat>,
                  sub: Option<seq<Sub>>, recs: seq<Record>, n: nat, r: nat)
    requires CopyOk(us, tmp, dict, sub, recs) && 0 < n <= |recs|
    requires r < |tmp| && tmp[r].len > 0 && DisjointFrom(tmp, r) && !Names(dict, recs[n - 1], r)
    ensures Slot(CopyRecords(us, tmp, dict, sub, recs, n), tmp, r)
         == Slot(CopyRecords(us, tmp, dict, sub, recs, n - 1), tmp, r)
  {
    var before := CopyRecords(us, tmp, dict, sub, recs, n - 1);
    assert CopyRecords(us, tmp, dict, sub, recs, n) == CopyRecord(before, tmp, dict, sub, recs, n - 1);
    RecordBeside(before, tmp, dict, sub, recs, n - 1, r);
  }

  /** Records that name other reads leave read r's interval as record k left it. */
  lemma {:induction false} CopyStays(us: seq<Utg>, tmp: seq<Intv>, dict: map<seq<char>, nat>,
                                     sub: Option<seq<Sub>>, recs: seq<Record>, n: nat, r: nat, k: nat,
                                     w: seq<byte>)
    requires CopyOk(us, tmp, dict, sub, recs) && n <= |recs|
    requires r < |tmp| && tmp[r].len > 0 && DisjointFrom(tmp, r)
    requires k < n && forall k' :: k < k' < n ==> !Names(dict, recs[k'], r)
    requires Slot(CopyRecords(us, tmp, dict, sub, recs, k + 1), tmp, r) == w
    ensures Slot(CopyRecords(us, tmp, dict, sub, recs, n), tmp, r) == w
    decreases n
  {
    if k < n - 1 {
      CopyStays(us, tmp, dict, sub, recs, n - 1, r, k, w);
      CopyKeepsSlot(us, tmp, dict, sub, recs, n, r, w);
    }
  }

  /** CopyKeeps, carried over to whatever the interval held before. */
  lemma CopyKeepsSlot(us: seq<Utg>, tmp: seq<Intv>, dict: map<seq<char>, nat>,
                      sub: Option<seq<Sub>>, recs: seq<Record>, n: nat, r: nat, w: seq<byte>)
    requires CopyOk(us, tmp, dict, sub, recs) && 0 < n <= |recs|
    requires r < |tmp| && tmp[r].len > 0 && DisjointFrom(tmp, r) && !Names(dict, recs[n - 1], r)
    requires Slot(CopyRecords(us, tmp, dict, sub, recs, n - 1), tmp, r) == w
    ensures Slot(CopyRecords(us, tmp, dict, sub, recs, n), tmp, r) == w
  {
    CopyKeeps(us, tmp, dict, sub, recs, n, r);
  }

  /** A read's interval holds the piece of the last record that names it. */
  lemma CopyLast(us: seq<Utg>, tmp: seq<Intv>, dict: map<seq<char>, nat>,
                 sub: Option<seq<Sub>>, recs: seq<Record>, n: nat, r: nat, k: nat)
    requires CopyOk(us, tmp, dict, sub, recs) && n <= |recs|
    requires r < |tmp| && tmp[r].len > 0 && DisjointFrom(tmp, r)
    requires k < n && Names(dict, recs[k], r)
    requires forall k' :: k < k' < n ==> !Names(dict, recs[k'], r)
    ensures TrimOk(sub, r, recs[k].bases) && tmp[r].len <= |Trimmed(sub, r, recs[k].bases)|
    ensures Slot(CopyRecords(us, tmp, dict, sub, recs, n), tmp, r)
         == Piece(tmp[r], Trimmed(sub, r, recs[k].bases))
  {
    CopyHere(us, tmp, dict, sub, recs, k + 1, r);
    CopyStays(us, tmp, dict, sub, recs, n, r, k, Slot(CopyRecords(us, tmp, dict, sub, recs, k + 1), tmp, r));
  }

  /** No copied record's interval covers position p of unitig i. */
  predicate Uncovered(tmp: seq<Intv>, dict: map<seq<char>, nat>, recs: seq<Record>, n: nat, i: int, p: int)
    requires IdsIn(dict, |tmp|) && n <= |recs|
  {
    forall k :: 0 <= k < n && Copied(tmp, dict, recs[k]) ==>
      var t := tmp[dict[recs[k].name]];
      t.utg != i || p < t.start || t.start + t.len <= p
  }

  /** A position no copied record covers keeps its byte. */
  lemma {:induction false} CopyOutside(us: seq<Utg>, tmp: seq<Intv>, dict: map<seq<char>, nat>,
                                       sub: Option<seq<Sub>>, recs: seq<Record>, n: nat, i: nat, p: nat)
    requires CopyOk(us, tmp, dict, sub, recs) && n <= |recs|
    requires i < |us| && p < |us[i].s| && Uncovered(tmp, dict, recs, n, i, p)
    ensures CopyRecords(us, tmp, dict, sub, recs, n)[i].s[p] == us[i].s[p]
    decreases n
  {
    if n > 0 {
      CopyOutside(us, tmp, dict, sub, recs, n - 1, i, p);
    }
  }

  /** Every record that names a read claimed with a non-empty interval can be
      cut to the read's sub-interval and then covers the member's length. */
  predicate RecordsCover(us: seq<Utg>, dict: map<seq<char>, nat>, sub: Option<seq<Sub>>, recs: seq<Record>) {
    forall k, i, j ::
      (0 <= k < |recs| && 0 <= i < |us| && 0 <= j < |us[i].a|
       && Names(dict, recs[k], Read(us[i].a[j])) && us[i].a[j].1 != 0)
      ==> (TrimOk(sub, Read(us[i].a[j]), recs[k].bases)
           && us[i].a[j].1 <= |Trimmed(sub, Read(us[i].a[j]), recs[k].bases)|)
  }

  /** What ma_ug_seq is given, and the table its layout loop builds. */
  ghost predicate SeqInputs(us: seq<Utg>, nSeq: nat, tmp: seq<Intv>, dict: map<seq<char>, nat>,
                            sub: Option<seq<Sub>>, recs: seq<Record>) {
    MembersOk(us, nSeq) && ClaimsOnce(us) && |tmp| == nSeq && LaidOut(us, tmp)
    && IdsIn(dict, nSeq) && RecordsCover(us, dict, sub, recs)
  }

  /** Every record that is copied fits its read's interval. */
  lemma LayoutRecordsFit(us: seq<Utg>, nSeq: nat, tmp: seq<Intv>, dict: map<seq<char>, nat>,
                         sub: Option<seq<Sub>>, recs: seq<Record>)
    requires SeqInputs(us, nSeq, tmp, dict, sub, recs)
    ensures RecordsFit(tmp, dict, sub, recs)
  {
    forall k | 0 <= k < |recs| && Copied(tmp, dict, recs[k])
      ensures TrimOk(sub, dict[recs[k].name], recs[k].bases)
        && tmp[dict[recs[k].name]].len <= |Trimmed(sub, dict[recs[k].name], recs[k].bases)|
    {
      var id := dict[recs[k].name];
      var j :| ClaimedBy(us, id, tmp[id], j);
      assert Names(dict, recs[k], Read(us[tmp[id].utg].a[j]));
    }
  }

  /** The copy loop may run on the table the layout loop builds. */
  lemma SeqInputsOk(us: seq<Utg>, nSeq: nat, tmp: seq<Intv>, dict: map<seq<char>, nat>,
                    sub: Option<seq<Sub>>, recs: seq<Record>)
    requires SeqInputs(us, nSeq, tmp, dict, sub, recs)
    ensures CopyOk(Blanked(us), tmp, dict, sub, recs) && Disjoint(tmp)
  {
    LayoutFits(us, nSeq, tmp);
    LayoutDisjoint(us, nSeq, tmp);
    LayoutRecordsFit(us, nSeq, tmp, dict, sub, recs);
  }

  /** ma_ug_seq: -1 when the reads file cannot be opened; otherwise every
      unitig gets a blank buffer, and every record of a claimed read is copied
      into its interval. */
  method MaUgSeq(ug: MaUg, nSeq: nat, dict: map<seq<char>, nat>, sub: Option<seq<Sub>>,
                 fileOk: bool, recs: seq<Record>) returns (ret: int, ghost tmp: seq<Intv>)
    modifies ug`u
    requires MembersOk(ug.u, nSeq) && ClaimsOnce(ug.u) && IdsIn(dict, nSeq)
    requires RecordsCover(ug.u, dict, sub, recs)
    ensures !fileOk ==> ret == -1 && ug.u == old(ug.u)
    ensures fileOk ==> (ret == 0 && SeqInputs(old(ug.u), nSeq, tmp, dict, sub, recs)
      && CopyOk(Blanked(old(ug.u)), tmp, dict, sub, recs)
      && ug.u == CopyRecords(Blanked(old(ug.u)), tmp, dict, sub, recs, |recs|))
  {
    if !fileOk {
      return -1, [];
    }
    var us, t := LayoutIntervals(ug.u, nSeq);
    SeqInputsOk(ug.u, nSeq, t, dict, sub, recs);
    us := CopyAll(us, t, dict, sub, recs);
    ug.u, ret, tmp := us, 0, t;
  }

  /** A member's stretch of its unitig sequence holds the piece of the last
      record that names its read: the read's first bases on the forward
      strand, its last bases reverse-complemented on the reverse strand. */
  lemma MemberSequence(us: seq<Utg>, nSeq: nat, tmp: seq<Intv>, dict: map<seq<char>, nat>,
                       sub: Option<seq<Sub>>, recs: seq<Record>, i: nat, j: nat, k: nat)
    requires SeqInputs(us, nSeq, tmp, dict, sub, recs)
    requires i < |us| && j < |us[i].a| && us[i].a[j].1 != 0
    requires k < |recs| && Names(dict, recs[k], Read(us[i].a[j]))
    requires forall k' :: k < k' < |recs| ==> !Names(dict, recs[k'], Read(us[i].a[j]))
    ensures CopyOk(Blanked(us), tmp, dict, sub, recs) && TrimOk(sub, Read(us[i].a[j]), recs[k].bases)
    ensures var t := MemberIntv(us, i, j);
      var s := CopyRecords(Blanked(us), tmp, dict, sub, recs, |recs|)[i].s;
      0 <= t.start && t.start + t.len <= |s| && t.len <= |Trimmed(sub, Read(us[i].a[j]), recs[k].bases)|
      && s[t.start..t.start + t.len] == Piece(t, Trimmed(sub, Read(us[i].a[j]), recs[k].bases))
  {
    SeqInputsOk(us, nSeq, tmp, dict, sub, recs);
    var r := Read(us[i].a[j]);
    DisjointAt(tmp, r);
    CopyLast(Blanked(us), tmp, dict, sub, recs, |recs|, r, k);
  }

  /** A member whose read no record names keeps its 'N's. */
  lemma MemberUnread(us: seq<Utg>, nSeq: nat, tmp: seq<Intv>, dict: map<seq<char>, nat>,
                     sub: Option<seq<Sub>>, recs: seq<Record>, i: nat, j: nat, p: int)
    requires SeqInputs(us, nSeq, tmp, dict, sub, recs)
    requires i < |us| && j < |us[i].a| && us[i].a[j].1 != 0
    requires forall k :: 0 <= k < |recs| ==> !Names(dict, recs[k], Read(us[i].a[j]))
    requires MemberIntv(us, i, j).start <= p < MemberIntv(us, i, j).start + us[i].a[j].1
    ensures CopyOk(Blanked(us), tmp, dict, sub, recs)
    ensures var s := CopyRecords(Blanked(us), tmp, dict, sub, recs, |recs|)[i].s;
      0 <= p < |s| && s[p] == BaseN
  {
    SeqInputsOk(us, nSeq, tmp, dict, sub, recs);
    var r := Read(us[i].a[j]);
    var t := tmp[r];
    assert Uncovered(tmp, dict, recs, |recs|, i, p) by {
      forall k | 0 <= k < |recs| && Copied(tmp, dict, recs[k])
        ensures tmp[dict[recs[k].name]].utg != i || p < tmp[dict[recs[k].name]].start
          || tmp[dict[recs[k].name]].start + tmp[dict[recs[k].name]].len <= p
      {
        assert dict[recs[k].name] != r;
      }
    }
    CopyOutside(Blanked(us), tmp, dict, sub, recs, |recs|, i, p);
  }

  /** Copying never reaches the terminating NUL of a unitig sequence. */
  lemma SequenceEnd(us: seq<Utg>, nSeq: nat, tmp: seq<Intv>, dict: map<seq<char>, nat>,
                    sub: Option<seq<Sub>>, recs: seq<Record>, i: nat)
    requires SeqInputs(us, nSeq, tmp, dict, sub, recs) && i < |us|
    ensures CopyOk(Blanked(us), tmp, dict, sub, recs)
    ensures var s := CopyRecords(Blanked(us), tmp, dict, sub, recs, |recs|)[i].s;
      |s| == us[i].len + 1 && s[us[i].len] == 0
  {
    SeqInputsOk(us, nSeq, tmp, dict, sub, recs);
    CopyOutside(Blanked(us), tmp, dict, sub, recs, |recs|, i, us[i].len);
  }
}
