/** The Modbus read planner: tags grouped into the minimum number of FC 3/4
    requests, bridging small gaps and respecting the protocol limit. */
module ReadPlan {
  import opened Bytes
  import opened Sequences
  import opened ModbusRegs
  import ModbusFrame

  const LIMIT := ModbusFrame.MAX_REGISTERS

  datatype Tag = Tag(name: string, fn: byte, start: uint16, words: nat, typ: DataType, order: ByteOrder)

  datatype Block = Block(fn: byte, start: uint16, count: uint16, tags: seq<Tag>)

  function End(t: Tag): nat {
    t.start + t.words
  }

  /** A tag one request can cover; types occupy one or two registers. */
  predicate Readable(t: Tag) {
    1 <= t.words <= LIMIT
  }

  /** The order sort.Slice sorts by. */
  predicate Before(a: Tag, b: Tag) {
    a.fn < b.fn || (a.fn == b.fn && a.start < b.start)
  }

  /** One of the orders the unstable sort may leave. */
  ghost predicate Sorted(s: seq<Tag>) {
    forall i, j :: 0 <= i < j < |s| ==> !Before(s[j], s[i])
  }

  // ----- What a request may cover ----------------------------------------------

  /** Every tag but the lowest ones starts at most maxGap registers after the end
      of some tag that starts below it: no bridged hole is wider. */
  ghost predicate Bridged(b: seq<Tag>, maxGap: int) {
    forall t <- b ::
      (forall y <- b :: y.start >= t.start) ||
      (exists y <- b :: y.start < t.start && t.start <= y.start + y.words + maxGap)
  }

  /** Tags that one request may read: one function code, at most 125 registers
      from the lowest start to the highest end, no hole above maxGap. */
  ghost predicate Feasible(b: seq<Tag>, maxGap: int) {
    (forall x <- b :: forall y <- b :: x.fn == y.fn && y.start + y.words - x.start <= 125) && Bridged(b, maxGap)
  }

  /** A way to read all tags: feasible groups of tags that together contain each
      of them, possibly several times. */
  ghost predicate Covers(cover: seq<seq<Tag>>, tags: seq<Tag>, maxGap: int) {
    (forall i :: 0 <= i < |cover| ==> Feasible(cover[i], maxGap) && forall t <- cover[i] :: t in tags) &&
    forall t <- tags :: exists i :: 0 <= i < |cover| && t in cover[i]
  }

  // ----- Why the greedy choice is optimal ----------------------------------------

  /** A tag that no tag starting below it reaches within maxGap. */
  ghost predicate AfterHole(y: Tag, tags: seq<Tag>, maxGap: int) {
    forall t <- tags :: t.fn == y.fn && t.start < y.start ==> End(t) + maxGap < y.start
  }

  /** A reason why no request can read both tags. */
  ghost predicate Apart(x: Tag, y: Tag, tags: seq<Tag>, maxGap: int) {
    x.fn != y.fn || End(y) - x.start > LIMIT || (x.start < y.start && AfterHole(y, tags, maxGap))
  }

  lemma NeverTogether(x: Tag, y: Tag, tags: seq<Tag>, maxGap: int, b: seq<Tag>)
    requires Apart(x, y, tags, maxGap) && Feasible(b, maxGap) && forall t <- b :: t in tags
    ensures !(x in b && y in b)
  {
  }

  /** Distinct numbers below n are at most n. */
  lemma {:induction false} Pigeonhole(g: seq<nat>, n: nat)
    requires forall i :: 0 <= i < |g| ==> g[i] < n
    requires forall i, j :: 0 <= i < j < |g| ==> g[i] != g[j]
    ensures |g| <= n
  {
    if g != [] {
      assert g[0] < n;
      if k :| 0 <= k < |g| && g[k] == n - 1 {
        var rest := g[..k] + g[k + 1..];
        Pigeonhole(rest, n - 1);
      } else {
        Pigeonhole(g, n - 1);
      }
    }
  }

  /** The tag a block starts with. */
  function Firsts(blocks: seq<Block>): (fs: seq<Tag>)
    requires forall b <- blocks :: b.tags != []
    ensures |fs| == |blocks|
  {
    seq(|blocks|, i requires 0 <= i < |blocks| =>
      assert blocks[i] in blocks;
      blocks[i].tags[0])
  }

  ghost predicate PairwiseApart(fs: seq<Tag>, tags: seq<Tag>, maxGap: int) {
    forall i, j :: 0 <= i < j < |fs| ==> Apart(fs[i], fs[j], tags, maxGap)
  }

  /** Tags no two of which fit one request need a request each. */
  lemma ApartNeedsMany(fs: seq<Tag>, tags: seq<Tag>, maxGap: int, cover: seq<seq<Tag>>)
    requires PairwiseApart(fs, tags, maxGap) && Covers(cover, tags, maxGap) && forall f <- fs :: f in tags
    ensures |fs| <= |cover|
  {
    hide Feasible, Apart;
    var g := Choices(fs, tags, maxGap, cover);
    forall i, j | 0 <= i < j < |g| ensures g[i] != g[j] {
      NeverTogether(fs[i], fs[j], tags, maxGap, cover[g[i]]);
    }
    Pigeonhole(g, |cover|);
  }

  /** For each tag, a group that contains it. */
  lemma {:induction false} Choices(fs: seq<Tag>, tags: seq<Tag>, maxGap: int, cover: seq<seq<Tag>>)
    returns (g: seq<nat>)
    requires Covers(cover, tags, maxGap) && forall f <- fs :: f in tags
    ensures |g| == |fs| && forall i :: 0 <= i < |g| ==> g[i] < |cover| && fs[i] in cover[g[i]]
  {
    hide Feasible;
    g := [];
    for k := 0 to |fs|
      invariant |g| == k && forall i :: 0 <= i < k ==> g[i] < |cover| && fs[i] in cover[g[i]]
    {
      assert fs[k] in tags;
      var c :| 0 <= c < |cover| && fs[k] in cover[c];
      g := g + [c];
    }
  }

  // ----- The blocks the planner builds --------------------------------------------

  function TagLists(blocks: seq<Block>): (r: seq<seq<Tag>>)
    ensures |r| == |blocks|
  {
    seq(|blocks|, i requires 0 <= i < |blocks| => blocks[i].tags)
  }

  /** The tags have the block's function code and lie in its range, which the
      first one starts and some tag ends. */
  ghost predicate Spans(b: Block) {
    b.tags != [] && b.tags[0].start == b.start &&
    (forall t <- b.tags :: t.fn == b.fn && b.start <= t.start && t.start + t.words <= b.start + b.count) &&
    exists t <- b.tags :: End(t) == b.start + b.count
  }

  /** A block describes exactly the span of its tags and may be requested. */
  ghost predicate Exact(b: Block, maxGap: int) {
    Spans(b) && 1 <= b.count <= LIMIT && Bridged(b.tags, maxGap)
  }

  lemma ExactFeasible(b: Block, maxGap: int)
    requires Exact(b, maxGap)
    ensures Feasible(b.tags, maxGap)
  {
  }

  lemma ExactFirst(b: Block, maxGap: int)
    requires Exact(b, maxGap)
    ensures b.tags != [] && b.tags[0] in b.tags && b.tags[0].fn == b.fn && b.tags[0].start == b.start
  {
  }

  /** A block for one tag. */
  function Alone(t: Tag): Block
    requires Readable(t)
  {
    Block(t.fn, t.start, t.words, [t])
  }

  lemma AloneExact(t: Tag, maxGap: int)
    requires Readable(t)
    ensures Exact(Alone(t), maxGap)
  {
    assert t in [t];
  }

  function Max(a: int, b: int): int {
    if a >= b then a else b
  }

  /** When the planner adds t to b. */
  predicate Joins(b: Block, t: Tag, maxGap: int) {
    var end := b.start + b.count;
    t.fn == b.fn && t.start - end <= maxGap && Max(End(t), end) - b.start <= LIMIT
  }

  function Extended(b: Block, t: Tag, maxGap: int): Block
    requires Joins(b, t, maxGap)
  {
    b.(count := Max(End(t), b.start + b.count) - b.start, tags := b.tags + [t])
  }

  /** Adding a tag that does not start below the others keeps a block exact. */
  lemma ExtendedExact(b: Block, t: Tag, maxGap: int)
    requires Exact(b, maxGap) && Joins(b, t, maxGap) && maxGap >= 0
    requires forall x <- b.tags :: x.start <= t.start
    ensures Exact(Extended(b, t, maxGap), maxGap)
  {
    ExtendedSpans(b, t, maxGap);
    var top :| top in b.tags && End(top) == b.start + b.count;
    ExtendedBridged(b.tags, t, top, maxGap);
    hide Bridged, Spans;
  }

  lemma ExtendedSpans(b: Block, t: Tag, maxGap: int)
    requires Spans(b) && Joins(b, t, maxGap)
    requires forall x <- b.tags :: x.start <= t.start
    ensures Spans(Extended(b, t, maxGap))
  {
    var next := Extended(b, t, maxGap);
    assert b.tags[0] in b.tags;
    assert t in next.tags;
    var top :| top in b.tags && End(top) == b.start + b.count;
    assert top in next.tags;
  }

  lemma ExtendedBridged(tags: seq<Tag>, t: Tag, top: Tag, maxGap: int)
    requires Bridged(tags, maxGap) && top in tags && t.start - End(top) <= maxGap
    requires forall x <- tags :: x.start <= t.start
    ensures Bridged(tags + [t], maxGap)
  {
    var all := tags + [t];
    assert top in all && forall x <- tags :: x in all;
    forall x | x in all
      ensures (forall y <- all :: y.start >= x.start) ||
        (exists y <- all :: y.start < x.start && x.start <= End(y) + maxGap)
    {
      if x in tags {
        ExtendBridge(tags, t, x, maxGap);
      } else if top.start < t.start {
      } else {
        ExtendBridge(tags, t, top, maxGap);
      }
    }
  }

  lemma ExtendBridge(tags: seq<Tag>, t: Tag, x: Tag, maxGap: int)
    requires Bridged(tags, maxGap) && x in tags && x.start <= t.start
    ensures (forall y <- tags + [t] :: y.start >= x.start) ||
            (exists y <- tags + [t] :: y.start < x.start && x.start <= End(y) + maxGap)
  {
    if y :| y in tags && y.start < x.start && x.start <= End(y) + maxGap {
      assert y in tags + [t];
    }
  }

  ghost predicate AllExact(blocks: seq<Block>, maxGap: int) {
    forall b <- blocks :: Exact(b, maxGap)
  }

  /** Nothing grouped so far has a higher function code or reaches further than
      the current block, and no block starts above it. */
  ghost predicate Below(done: seq<Tag>, all: seq<Block>, cur: Block) {
    (forall t <- done :: t.fn <= cur.fn && (t.fn == cur.fn ==> End(t) <= cur.start + cur.count)) &&
    (forall b <- all :: b.fn == cur.fn ==> b.start <= cur.start)
  }

  ghost predicate FirstsApart(blocks: seq<Block>, tags: seq<Tag>, maxGap: int) {
    (forall b <- blocks :: b.tags != []) && PairwiseApart(Firsts(blocks), tags, maxGap)
  }

  /** What is known when the planner has grouped the first i sorted tags. */
  ghost predicate Grouped(sorted: seq<Tag>, i: nat, blocks: seq<Block>, cur: Block, maxGap: int) {
    var all := blocks + [cur];
    i <= |sorted| &&
    AllExact(all, maxGap) &&
    Flatten(TagLists(all)) == sorted[..i] &&
    Below(sorted[..i], all, cur) &&
    FirstsApart(all, sorted, maxGap)
  }

  /** Plan: the greedy loop over the sorted tags. Every tag is in exactly one
      block, every block is exact, and no other way of reading all tags takes
      fewer requests. `sorted` is what sort.Slice leaves: ties in any order. */
  method Plan(tags: seq<Tag>, maxGap: int, sorted: seq<Tag>) returns (blocks: seq<Block>)
    requires maxGap >= 0 && forall t <- tags :: Readable(t)
    requires multiset(sorted) == multiset(tags) && Sorted(sorted)
    ensures Flatten(TagLists(blocks)) == sorted
    ensures AllExact(blocks, maxGap)
    ensures Covers(TagLists(blocks), tags, maxGap)
    ensures forall cover :: Covers(cover, tags, maxGap) ==> |blocks| <= |cover|
  {
    SameMembers(sorted, tags);
    if |tags| == 0 {
      assert |multiset(sorted)| == 0;
      return [];
    }
    assert |multiset(sorted)| == |multiset(tags)|;
    assert forall k :: 0 <= k < |sorted| ==> sorted[k] in tags;
    var t0 := sorted[0];
    blocks := [];
    var cur := Block(t0.fn, t0.start, t0.words, [t0]);
    GroupFirst(sorted, maxGap);
    for i := 1 to |sorted|
      invariant Grouped(sorted, i, blocks, cur, maxGap)
    {
      var t := sorted[i];
      var end := cur.start + cur.count;
      var gap := t.start - end;
      var newCount := Max(End(t), end) - cur.start;
      hide Grouped, Sorted;
      if t.fn == cur.fn && gap <= maxGap && newCount <= LIMIT {
        GroupJoin(sorted, i, blocks, cur, maxGap);
        cur := cur.(count := newCount, tags := cur.tags + [t]);
      } else {
        GroupSplit(sorted, i, blocks, cur, maxGap);
        blocks := blocks + [cur];
        cur := Block(t.fn, t.start, t.words, [t]);
      }
    }
    GroupedMinimal(sorted, blocks, cur, maxGap, tags);
    blocks := blocks + [cur];
  }

  lemma SameMembers(a: seq<Tag>, b: seq<Tag>)
    requires multiset(a) == multiset(b)
    ensures forall t :: t in a <==> t in b
  {
    forall t ensures t in a <==> t in b {
      assert t in a <==> t in multiset(a);
      assert t in b <==> t in multiset(b);
    }
  }

  lemma GroupFirst(sorted: seq<Tag>, maxGap: int)
    requires sorted != [] && Readable(sorted[0])
    ensures Grouped(sorted, 1, [], Alone(sorted[0]), maxGap)
  {
    var t := sorted[0];
    var cur := Alone(t);
    AloneExact(t, maxGap);
    assert [] + [cur] == [cur];
    assert TagLists([cur]) == [] + [[t]];
    FlattenSnoc([], [t]);
    assert sorted[..1] == [t];
  }

  lemma GroupLists(blocks: seq<Block>, cur: Block)
    ensures Flatten(TagLists(blocks + [cur])) == Flatten(TagLists(blocks)) + cur.tags
  {
    assert TagLists(blocks + [cur]) == TagLists(blocks) + [cur.tags];
    FlattenSnoc(TagLists(blocks), cur.tags);
  }

  /** The next tag does not come before anything grouped so far. */
  lemma NextTag(sorted: seq<Tag>, i: nat)
    requires Sorted(sorted) && i < |sorted|
    ensures forall x <- sorted[..i] :: !Before(sorted[i], x)
    ensures forall x <- sorted :: Before(x, sorted[i]) ==> x in sorted[..i]
    ensures sorted[..i + 1] == sorted[..i] + [sorted[i]]
  {
    forall x | x in sorted && Before(x, sorted[i]) ensures x in sorted[..i] {
      var k :| 0 <= k < |sorted| && sorted[k] == x;
      assert k < i;
      assert sorted[..i][k] == x;
    }
  }

  /** Every block holds grouped tags only. */
  lemma GroupedTags(sorted: seq<Tag>, i: nat, blocks: seq<Block>, cur: Block, maxGap: int)
    requires Grouped(sorted, i, blocks, cur, maxGap)
    ensures forall b <- blocks + [cur] :: Exact(b, maxGap) && b.fn <= cur.fn && b.tags != [] && b.tags[0] in sorted[..i]
    ensures forall t <- cur.tags :: t in sorted[..i] && t.fn == cur.fn
  {
    var all := blocks + [cur];
    hide FirstsApart, Bridged;
    forall b, t | b in all && t in b.tags ensures t in sorted[..i] && t.fn == b.fn && b.fn <= cur.fn {
      var k :| 0 <= k < |all| && all[k] == b;
      assert t in TagLists(all)[k];
      FlattenMember(TagLists(all), t);
    }
    forall b | b in all ensures Exact(b, maxGap) && b.fn <= cur.fn && b.tags != [] && b.tags[0] in sorted[..i] {
      ExactFirst(b, maxGap);
    }
    assert cur in all;
  }

  lemma GroupJoin(sorted: seq<Tag>, i: nat, blocks: seq<Block>, cur: Block, maxGap: int)
    requires Grouped(sorted, i, blocks, cur, maxGap) && Sorted(sorted) && i < |sorted| && maxGap >= 0
    requires Joins(cur, sorted[i], maxGap)
    ensures Grouped(sorted, i + 1, blocks, Extended(cur, sorted[i], maxGap), maxGap)
  {
    var t := sorted[i];
    var next := Extended(cur, t, maxGap);
    NextTag(sorted, i);
    JoinExact(sorted, i, blocks, cur, maxGap);
    JoinFirsts(sorted, blocks, cur, next, maxGap);
    GroupLists(blocks, cur);
    GroupLists(blocks, next);
    JoinBelow(sorted[..i], blocks, cur, t, maxGap);
    hide AllExact, FirstsApart, Sorted, TagLists, Flatten, Below;
    var before := Flatten(TagLists(blocks));
    assert before + (cur.tags + [t]) == before + cur.tags + [t];
  }

  lemma JoinExact(sorted: seq<Tag>, i: nat, blocks: seq<Block>, cur: Block, maxGap: int)
    requires Grouped(sorted, i, blocks, cur, maxGap) && Sorted(sorted) && i < |sorted| && maxGap >= 0
    requires Joins(cur, sorted[i], maxGap)
    ensures AllExact(blocks + [Extended(cur, sorted[i], maxGap)], maxGap)
  {
    var t := sorted[i];
    NextTag(sorted, i);
    GroupedTags(sorted, i, blocks, cur, maxGap);
    assert cur in blocks + [cur];
    ExtendedExact(cur, t, maxGap);
    hide Exact;
    assert forall b <- blocks + [Extended(cur, t, maxGap)] :: b in blocks + [cur] || b == Extended(cur, t, maxGap);
  }

  lemma JoinFirsts(sorted: seq<Tag>, blocks: seq<Block>, cur: Block, next: Block, maxGap: int)
    requires FirstsApart(blocks + [cur], sorted, maxGap)
    requires cur.tags != [] ==> next.tags != [] && next.tags[0] == cur.tags[0]
    ensures FirstsApart(blocks + [next], sorted, maxGap)
  {
    assert cur in blocks + [cur];
    hide PairwiseApart;
    SameFirsts(blocks, cur, next);
  }

  lemma JoinBelow(done: seq<Tag>, blocks: seq<Block>, cur: Block, t: Tag, maxGap: int)
    requires Below(done, blocks + [cur], cur) && Joins(cur, t, maxGap)
    ensures var next := Extended(cur, t, maxGap); Below(done + [t], blocks + [next], next)
  {
    var next := Extended(cur, t, maxGap);
    assert forall b <- blocks + [next] :: b in blocks + [cur] || b == next;
  }

  lemma SameFirsts(blocks: seq<Block>, cur: Block, next: Block)
    requires (forall b <- blocks + [cur] :: b.tags != []) && next.tags != [] && next.tags[0] == cur.tags[0]
    ensures (forall b <- blocks + [next] :: b.tags != []) && Firsts(blocks + [next]) == Firsts(blocks + [cur])
  {
    assert forall b <- blocks :: b in blocks + [cur];
    assert cur in blocks + [cur];
  }

  lemma GroupSplit(sorted: seq<Tag>, i: nat, blocks: seq<Block>, cur: Block, maxGap: int)
    requires Grouped(sorted, i, blocks, cur, maxGap) && Sorted(sorted) && i < |sorted| && maxGap >= 0
    requires Readable(sorted[i]) && !Joins(cur, sorted[i], maxGap)
    ensures Grouped(sorted, i + 1, blocks + [cur], Alone(sorted[i]), maxGap)
  {
    var t := sorted[i];
    var all := blocks + [cur];
    var next := Alone(t);
    NextTag(sorted, i);
    AloneExact(t, maxGap);
    GroupLists(all, next);
    SplitFirsts(sorted, i, blocks, cur, maxGap);
    SplitBelow(sorted, i, blocks, cur, maxGap);
    hide Exact, TagLists, Flatten, FirstsApart, Sorted, Below;
    assert forall b <- all + [next] :: b in all || b == next;
  }

  lemma SplitFirsts(sorted: seq<Tag>, i: nat, blocks: seq<Block>, cur: Block, maxGap: int)
    requires Grouped(sorted, i, blocks, cur, maxGap) && Sorted(sorted) && i < |sorted| && maxGap >= 0
    requires Readable(sorted[i]) && !Joins(cur, sorted[i], maxGap)
    ensures FirstsApart(blocks + [cur] + [Alone(sorted[i])], sorted, maxGap)
  {
    var all := blocks + [cur];
    var next := Alone(sorted[i]);
    forall b | b in all ensures b.tags != [] && Apart(b.tags[0], sorted[i], sorted, maxGap) {
      SplitApart(sorted, i, blocks, cur, maxGap, b);
    }
    hide Exact, Apart;
    assert forall b <- all + [next] :: b in all || b == next;
    assert Firsts(all + [next]) == Firsts(all) + [sorted[i]];
  }

  /** A tag the current block cannot take is apart from the first tag of every
      block so far. */
  lemma SplitApart(sorted: seq<Tag>, i: nat, blocks: seq<Block>, cur: Block, maxGap: int, b: Block)
    requires Grouped(sorted, i, blocks, cur, maxGap) && Sorted(sorted) && i < |sorted| && maxGap >= 0
    requires b in blocks + [cur] && !Joins(cur, sorted[i], maxGap)
    ensures b.tags != [] && Apart(b.tags[0], sorted[i], sorted, maxGap)
  {
    var t, end := sorted[i], cur.start + cur.count;
    GroupedTags(sorted, i, blocks, cur, maxGap);
    NextTag(sorted, i);
    ExactFirst(b, maxGap);
    assert cur in blocks + [cur];
    ExactFirst(cur, maxGap);
    var f := b.tags[0];
    hide Spans, Bridged, FirstsApart, AllExact, Sorted;
    if f.fn == t.fn && End(t) - f.start <= LIMIT {
      assert f.start <= cur.start && end - cur.start <= LIMIT;
      assert t.start > end + maxGap;
      assert forall x <- sorted :: x.fn == t.fn && x.start < t.start ==> x in sorted[..i];
    }
  }

  /** The new block ends and starts above everything with its function code. */
  lemma SplitBelow(sorted: seq<Tag>, i: nat, blocks: seq<Block>, cur: Block, maxGap: int)
    requires Grouped(sorted, i, blocks, cur, maxGap) && Sorted(sorted) && i < |sorted| && maxGap >= 0
    requires Readable(sorted[i]) && !Joins(cur, sorted[i], maxGap)
    ensures var next := Alone(sorted[i]); Below(sorted[..i] + [sorted[i]], blocks + [cur] + [next], next)
  {
    var t, end := sorted[i], cur.start + cur.count;
    var all := blocks + [cur];
    GroupedTags(sorted, i, blocks, cur, maxGap);
    NextTag(sorted, i);
    assert cur in all;
    ExactFirst(cur, maxGap);
    assert end - cur.start <= LIMIT;
    hide Spans, Bridged, FirstsApart, AllExact, Sorted;
    assert t.fn == cur.fn ==> cur.start <= t.start && (t.start > end + maxGap || End(t) > end);
    forall b | b in all + [Alone(t)] && b.fn == t.fn ensures b.start <= t.start {
      assert b in all || b == Alone(t);
    }
  }

  /** Exact blocks that hold all tags are one way of reading them. */
  lemma BlocksCover(blocks: seq<Block>, tags: seq<Tag>, maxGap: int)
    requires AllExact(blocks, maxGap) && Flatten(TagLists(blocks)) == tags
    ensures Covers(TagLists(blocks), tags, maxGap)
  {
    var lists := TagLists(blocks);
    forall i | 0 <= i < |lists| ensures Feasible(lists[i], maxGap) && forall t <- lists[i] :: t in tags {
      assert blocks[i] in blocks;
      ExactFeasible(blocks[i], maxGap);
      hide Exact, Feasible;
      forall t | t in lists[i] ensures t in tags {
        FlattenMember(lists, t);
      }
    }
    hide Exact, Feasible;
    forall t | t in tags ensures exists i :: 0 <= i < |lists| && t in lists[i] {
      FlattenMember(lists, t);
    }
  }

  /** The finished grouping holds every tag once and takes the fewest requests. */
  lemma GroupedMinimal(sorted: seq<Tag>, blocks: seq<Block>, cur: Block, maxGap: int, tags: seq<Tag>)
    requires Grouped(sorted, |sorted|, blocks, cur, maxGap) && forall t :: t in sorted <==> t in tags
    ensures Flatten(TagLists(blocks + [cur])) == sorted
    ensures AllExact(blocks + [cur], maxGap)
    ensures Covers(TagLists(blocks + [cur]), tags, maxGap)
    ensures forall cover :: Covers(cover, tags, maxGap) ==> |blocks| + 1 <= |cover|
  {
    var all := blocks + [cur];
    assert sorted[..|sorted|] == sorted;
    GroupedTags(sorted, |sorted|, blocks, cur, maxGap);
    BlocksCover(all, sorted, maxGap);
    hide AllExact, FirstsApart, Feasible, TagLists, Firsts, Exact;
    CoversSame(TagLists(all), sorted, tags, maxGap);
    forall cover | Covers(cover, tags, maxGap) ensures |all| <= |cover| {
      CoversSame(cover, tags, sorted, maxGap);
      BlocksNeeded(all, sorted, maxGap, cover);
    }
  }

  lemma CoversSame(cover: seq<seq<Tag>>, a: seq<Tag>, b: seq<Tag>, maxGap: int)
    requires Covers(cover, a, maxGap) && forall t :: t in a <==> t in b
    ensures Covers(cover, b, maxGap)
  {
    hide Feasible;
  }

  lemma BlocksNeeded(blocks: seq<Block>, tags: seq<Tag>, maxGap: int, cover: seq<seq<Tag>>)
    requires FirstsApart(blocks, tags, maxGap) && (forall b <- blocks :: b.tags[0] in tags) &&
      Covers(cover, tags, maxGap)
    ensures |blocks| <= |cover|
  {
    var fs := Firsts(blocks);
    hide Covers, PairwiseApart;
    assert forall k :: 0 <= k < |blocks| ==> blocks[k] in blocks;
    ApartNeedsMany(fs, tags, maxGap, cover);
  }
}
