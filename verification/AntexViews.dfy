/** The three views of the antenna blocks: the latest block under each id, every
    block under each id, and the file order. */
module AntexViews {
  import opened AntexTypes
  import opened AntexWriter

  datatype Views = Views(antennas: map<string, Antenna>, intervals: map<string, seq<Antenna>>, order: seq<(string, nat)>)

  function Kept(v: Views, a: Antenna): Views {
    var before := if a.id in v.intervals then v.intervals[a.id] else [];
    Views(v.antennas[a.id := a], v.intervals[a.id := before + [a]], v.order + [(a.id, |before|)])
  }

  /** The views after retaining those blocks in file order. */
  function ViewsOf(blocks: seq<Antenna>): Views {
    if blocks == [] then Views(map[], map[], [])
    else Kept(ViewsOf(blocks[..|blocks| - 1]), blocks[|blocks| - 1])
  }

  /** The blocks that carry `id`, in file order. */
  function WithId(blocks: seq<Antenna>, id: string): (r: seq<Antenna>)
    ensures forall i :: 0 <= i < |r| ==> r[i].id == id
  {
    if blocks == [] then []
    else
      var rest := WithId(blocks[..|blocks| - 1], id);
      if blocks[|blocks| - 1].id == id then rest + [blocks[|blocks| - 1]] else rest
  }

  lemma ViewsPush(blocks: seq<Antenna>, a: Antenna)
    ensures ViewsOf(blocks + [a]) == Kept(ViewsOf(blocks), a)
  {
    assert (blocks + [a])[..|blocks|] == blocks;
  }

  lemma WithIdPush(blocks: seq<Antenna>, a: Antenna, id: string)
    ensures WithId(blocks + [a], id) == if a.id == id then WithId(blocks, id) + [a] else WithId(blocks, id)
  {
    assert (blocks + [a])[..|blocks|] == blocks;
  }

  /** Under `id`: its own blocks in file order, the last of them in the public view. */
  ghost predicate Means(v: Views, blocks: seq<Antenna>, id: string) {
    var own := WithId(blocks, id);
    if own == [] then id !in v.intervals && id !in v.antennas
    else id in v.intervals && id in v.antennas && v.intervals[id] == own && v.antennas[id] == own[|own| - 1]
  }

  lemma {:induction false} KeptMeans(v: Views, blocks: seq<Antenna>, a: Antenna, id: string)
    requires Means(v, blocks, id) && Means(v, blocks, a.id)
    ensures Means(Kept(v, a), blocks + [a], id)
  {
    WithIdPush(blocks, a, id);
    hide WithId;
  }

  /** What each view holds, for every list of blocks. */
  lemma {:induction false} ViewsMean(blocks: seq<Antenna>, id: string)
    ensures Means(ViewsOf(blocks), blocks, id)
  {
    if blocks != [] {
      var n := |blocks| - 1;
      ViewsMean(blocks[..n], id);
      ViewsMean(blocks[..n], blocks[n].id);
      KeptMeans(ViewsOf(blocks[..n]), blocks[..n], blocks[n], id);
      assert blocks == blocks[..n] + [blocks[n]];
    }
  }

  /** Entry `i` is the id of block `i` and the number of that id's earlier blocks, so
      the entries of one id count up from zero. */
  lemma {:induction false} OrderNth(blocks: seq<Antenna>, i: nat)
    requires i < |blocks|
    ensures |ViewsOf(blocks).order| == |blocks|
    ensures ViewsOf(blocks).order[i] == (blocks[i].id, |WithId(blocks[..i], blocks[i].id)|)
  {
    var n := |blocks| - 1;
    var rest, a := blocks[..n], blocks[n];
    assert blocks == rest + [a];
    ViewsPush(rest, a);
    ViewsMean(rest, a.id);
    if n > 0 {
      OrderNth(rest, if i < n then i else 0);
      assert rest[..i] == blocks[..i];
    }
  }

  lemma {:induction false} WithIdPrefix(blocks: seq<Antenna>, i: nat, id: string)
    requires i <= |blocks|
    ensures WithId(blocks[..i], id) <= WithId(blocks, id)
    decreases |blocks|
  {
    if i == |blocks| {
      assert blocks[..i] == blocks;
    } else {
      var rest := blocks[..|blocks| - 1];
      assert rest[..i] == blocks[..i];
      WithIdPrefix(rest, i, id);
    }
  }

  /** Entry `i` of the order names block `i` of the file. */
  lemma {:induction false} OrderNames(blocks: seq<Antenna>, i: nat)
    requires i < |blocks|
    ensures var v := ViewsOf(blocks);
            && |v.order| == |blocks|
            && v.order[i].0 in v.intervals
            && v.order[i].1 < |v.intervals[v.order[i].0]|
            && v.intervals[v.order[i].0][v.order[i].1] == blocks[i]
  {
    var a := blocks[i];
    OrderNth(blocks, i);
    ViewsMean(blocks, a.id);
    assert blocks[..i + 1] == blocks[..i] + [a];
    WithIdPush(blocks[..i], a, a.id);
    WithIdPrefix(blocks, i + 1, a.id);
    var k := |WithId(blocks[..i], a.id)|;
    assert WithId(blocks[..i + 1], a.id)[k] == a;
  }

  /** The entries of one id name ever later intervals, so none is named twice. */
  lemma {:induction false} OrderListsOnce(blocks: seq<Antenna>, i: nat, j: nat)
    requires i < j < |blocks| && blocks[i].id == blocks[j].id
    ensures var o := ViewsOf(blocks).order; |o| == |blocks| && o[i].1 < o[j].1
  {
    var id := blocks[i].id;
    OrderNth(blocks, i);
    OrderNth(blocks, j);
    assert blocks[..i + 1] == blocks[..i] + [blocks[i]];
    WithIdPush(blocks[..i], blocks[i], id);
    assert blocks[..j][..i + 1] == blocks[..i + 1];
    WithIdPrefix(blocks[..j], i + 1, id);
  }

  /** Every retained interval is named by an entry. */
  lemma {:induction false} OrderListsAll(blocks: seq<Antenna>, id: string, k: nat) returns (i: nat)
    requires k < |WithId(blocks, id)|
    ensures i < |blocks| && |ViewsOf(blocks).order| == |blocks| && ViewsOf(blocks).order[i] == (id, k)
  {
    var n := |blocks| - 1;
    var rest, a := blocks[..n], blocks[n];
    assert blocks == rest + [a];
    WithIdPush(rest, a, id);
    if k < |WithId(rest, id)| {
      i := OrderListsAll(rest, id, k);
      ViewsPush(rest, a);
    } else {
      i := n;
      OrderNth(blocks, n);
    }
  }

  // ----- the count of retained blocks -----

  lemma {:induction false} CountPick(m: map<string, seq<Antenna>>, ids: set<string>, id: string)
    requires ids <= m.Keys && id in ids
    ensures CountIntervals(m, ids) == |m[id]| + CountIntervals(m, ids - {id})
    decreases ids
  {
    var first :| first in ids && CountIntervals(m, ids) == |m[first]| + CountIntervals(m, ids - {first});
    if first != id {
      CountPick(m, ids - {first}, id);
      CountPick(m, ids - {id}, first);
      assert ids - {first} - {id} == ids - {id} - {first};
    }
  }

  lemma {:induction false} CountSame(m: map<string, seq<Antenna>>, m': map<string, seq<Antenna>>, ids: set<string>)
    requires ids <= m.Keys && ids <= m'.Keys && forall id :: id in ids ==> m[id] == m'[id]
    ensures CountIntervals(m, ids) == CountIntervals(m', ids)
    decreases ids
  {
    if ids != {} {
      var id :| id in ids;
      CountPick(m, ids, id);
      CountPick(m', ids, id);
      CountSame(m, m', ids - {id});
    }
  }

  lemma {:induction false} CountKept(v: Views, a: Antenna)
    ensures CountIntervals(Kept(v, a).intervals, Kept(v, a).intervals.Keys)
            == CountIntervals(v.intervals, v.intervals.Keys) + 1
  {
    var m, m' := v.intervals, Kept(v, a).intervals;
    CountPick(m', m'.Keys, a.id);
    var others := m'.Keys - {a.id};
    CountSame(m, m', others);
    if a.id in m {
      CountPick(m, m.Keys, a.id);
      assert m.Keys - {a.id} == others;
    } else {
      assert m.Keys == others;
    }
  }

  lemma {:induction false} ViewsCount(blocks: seq<Antenna>)
    ensures var v := ViewsOf(blocks); CountIntervals(v.intervals, v.intervals.Keys) == |blocks|
  {
    if blocks != [] {
      var n := |blocks| - 1;
      ViewsCount(blocks[..n]);
      CountKept(ViewsOf(blocks[..n]), blocks[n]);
    }
  }

  /** A product whose views were built by retaining blocks. */
  ghost predicate Built(p: Antex, blocks: seq<Antenna>) {
    Views(p.antennas, p.intervals, p.blockOrder) == ViewsOf(blocks)
  }

  /** `validate_antennas_sync` never refuses views built by retaining blocks. */
  lemma {:induction false} BuiltViewsFit(p: Antex, blocks: seq<Antenna>)
    requires Built(p, blocks)
    ensures ViewsFit(p)
  {
    ViewsCount(blocks);
    OrderLength(blocks);
    hide ViewsOf, WithId;
    forall id ensures id in p.antennas <==> id in p.intervals {
      ViewsMean(blocks, id);
    }
    forall id | id in p.antennas
      ensures p.antennas[id].id == id && id in p.intervals && p.intervals[id] != []
      ensures p.antennas[id] == p.intervals[id][|p.intervals[id]| - 1]
    {
      ViewsMean(blocks, id);
    }
    forall id, i | id in p.intervals && 0 <= i < |p.intervals[id]| ensures p.intervals[id][i].id == id {
      ViewsMean(blocks, id);
    }
    assert p.antennas.Keys == p.intervals.Keys;
    assert |p.antennas| == |p.antennas.Keys| && |p.intervals| == |p.intervals.Keys|;
  }

  lemma {:induction false} OrderLength(blocks: seq<Antenna>)
    ensures |ViewsOf(blocks).order| == |blocks|
  {
    if blocks != [] {
      OrderLength(blocks[..|blocks| - 1]);
    }
  }
}
