/** The arbitrage detector: it groups every quote under a canonical game key,
    examines every pair of quotes in a group, evaluates the two betting
    scenarios a pair offers and keeps the best one that clears the
    threshold. Each imperative operation (`GetAllGames`, `CheckArbitrage`,
    `DetectOpportunities`) is proved equal to a specification function
    (`Group`, `CheckSpec`, `DetectSpec`), and the lemmas state what those
    functions guarantee. */
module Detector {
  import opened Models
  import TeamMapper
  import PyStr
  import Pricing

  /** The stake every opportunity is sized for; the detector fixes it at 100
      whatever the configured total bet amount is. */
  const TotalBet: real := 100.0

  /** The starting value of the best profit: a scenario must beat it. */
  const ProfitFloor: real := -10.0

  /** The quotes of every sportsbook, in the order of the (insertion-ordered)
      dictionary the aggregator produced. */
  type AllOdds = seq<(Sportsbook, seq<GameOdds>)>

  // ---------------------------------------------------------------------------
  // Game keys

  /** The key of a game between two standardised names: the smaller name (in
      Python's string order) first, joined by "_vs_". */
  function GameKey(team1Std: string, team2Std: string): string
  {
    if PyStr.Less(team1Std, team2Std) then team1Std + "_vs_" + team2Std
    else team2Std + "_vs_" + team1Std
  }

  function QuoteKey(table: map<string, string>, q: GameOdds): string
  {
    GameKey(TeamMapper.StandardizeTeamName(table, q.team1), TeamMapper.StandardizeTeamName(table, q.team2))
  }

  /** The key does not depend on which team a book lists first. */
  lemma GameKeySymmetric(a: string, b: string)
    ensures GameKey(a, b) == GameKey(b, a)
  {
    PyStr.LessAsymmetric(a, b);
    PyStr.LessTotal(a, b);
  }

  /** Two quotes that list the same two teams in opposite order get one key. */
  lemma QuoteKeySymmetric(table: map<string, string>, q: GameOdds, q': GameOdds)
    requires q'.team1 == q.team2 && q'.team2 == q.team1
    ensures QuoteKey(table, q) == QuoteKey(table, q')
  {
    GameKeySymmetric(TeamMapper.StandardizeTeamName(table, q.team1), TeamMapper.StandardizeTeamName(table, q.team2));
  }

  /** The joined key is not injective: a name containing "_vs_" can make two
      different games share a key. */
  lemma GameKeyCollision()
    ensures GameKey("A", "B_vs_C") == GameKey("A_vs_B", "C") == "A_vs_B_vs_C"
  {
    assert PyStr.Less("A", "B_vs_C");
    assert PyStr.Less("A_vs_B", "C");
  }

  // ---------------------------------------------------------------------------
  // Grouping

  /** An insertion-ordered dictionary from game key to the quotes of that
      game: `keys` lists the keys in first-insertion order. */
  datatype Games = Games(keys: seq<string>, buckets: map<string, seq<GameOdds>>)

  ghost predicate WellFormed(g: Games)
  {
    && (forall i, j :: 0 <= i < j < |g.keys| ==> g.keys[i] != g.keys[j])
    && (forall k :: k in g.keys <==> k in g.buckets)
  }

  /** All quotes, book after book, each book's list in its own order. */
  function Flatten(allOdds: AllOdds): seq<GameOdds>
  {
    if |allOdds| == 0 then []
    else Flatten(allOdds[..|allOdds| - 1]) + allOdds[|allOdds| - 1].1
  }

  /** If `a + b` is a prefix of `c`, then `b` sits in `c` right after `a`. */
  lemma PrefixAt<T>(a: seq<T>, b: seq<T>, c: seq<T>)
    requires a + b <= c
    ensures |a| + |b| <= |c|
    ensures forall t :: |a| <= t < |a| + |b| ==> c[t] == b[t - |a|]
  {
    assert forall t :: |a| <= t < |a| + |b| ==> c[t] == (a + b)[t];
  }

  /** The same, counted from the start of the block. */
  lemma PrefixBlock<T>(a: seq<T>, b: seq<T>, c: seq<T>, start: nat)
    requires a + b <= c && start == |a|
    ensures start + |b| <= |c|
    ensures forall k :: 0 <= k < |b| ==> c[start + k] == b[k]
  {
    forall k | 0 <= k < |b|
      ensures c[start + k] == b[k]
    {
      assert c[start + k] == (a + b)[start + k];
    }
  }

  /** A block inside a block of `all` sits in `all` at the sum of the offsets. */
  lemma BlockInBlock<T>(all: seq<T>, ps: seq<T>, row: seq<T>, offset: nat, pre: nat)
    requires offset + |ps| <= |all|
    requires forall k :: 0 <= k < |ps| ==> all[offset + k] == ps[k]
    requires pre + |row| <= |ps|
    requires forall k :: 0 <= k < |row| ==> ps[pre + k] == row[k]
    ensures forall k :: 0 <= k < |row| ==> all[offset + pre + k] == row[k]
  {
    forall k | 0 <= k < |row|
      ensures all[offset + pre + k] == row[k]
    {
      assert all[offset + (pre + k)] == ps[pre + k];
    }
  }

  lemma InRight<T>(a: seq<T>, c: seq<T>, p: T)
    requires p in c
    ensures p in a + c
  {
  }

  /** An element of a prefix is an element of the whole. */
  lemma InPrefix<T>(a: seq<T>, c: seq<T>, p: T)
    requires a <= c && p in a
    ensures p in c
  {
    var k :| 0 <= k < |a| && a[k] == p;
    assert c[k] == p;
  }

  lemma {:induction false} FlattenPrefix(allOdds: AllOdds, b: nat)
    requires b <= |allOdds|
    ensures Flatten(allOdds[..b]) <= Flatten(allOdds)
  {
    if b < |allOdds| {
      var init := allOdds[..|allOdds| - 1];
      FlattenPrefix(init, b);
      assert init[..b] == allOdds[..b];
    } else {
      assert allOdds[..b] == allOdds;
    }
  }

  /** The quotes of book `b` occupy the positions of the flattened list
      that follow the quotes of the books before it. */
  lemma FlattenAt(allOdds: AllOdds, b: nat)
    requires b < |allOdds|
    ensures |Flatten(allOdds[..b + 1])| == |Flatten(allOdds[..b])| + |allOdds[b].1| <= |Flatten(allOdds)|
    ensures forall t :: |Flatten(allOdds[..b])| <= t < |Flatten(allOdds[..b + 1])| ==>
      Flatten(allOdds)[t] == allOdds[b].1[t - |Flatten(allOdds[..b])|]
  {
    assert allOdds[..b + 1][..b] == allOdds[..b];
    FlattenPrefix(allOdds, b + 1);
    PrefixAt(Flatten(allOdds[..b]), allOdds[b].1, Flatten(allOdds));
  }

  /** The game key of every quote, position by position. */
  function Keys(table: map<string, string>, qs: seq<GameOdds>): (r: seq<string>)
    ensures |r| == |qs|
    ensures forall i :: 0 <= i < |qs| ==> r[i] == QuoteKey(table, qs[i])
  {
    seq(|qs|, i requires 0 <= i < |qs| => QuoteKey(table, qs[i]))
  }

  /** Append `q` to the bucket of `key`, opening the bucket if it is new. */
  function AddToGame(g: Games, key: string, q: GameOdds): Games
  {
    if key in g.buckets then Games(g.keys, g.buckets[key := g.buckets[key] + [q]])
    else Games(g.keys + [key], g.buckets[key := [q]])
  }

  /** The dictionary after the first `n` quotes of `qs` are added one by
      one, `ks[i]` being the key of `qs[i]`. */
  function GroupUpTo(qs: seq<GameOdds>, ks: seq<string>, n: nat): Games
    requires n <= |qs| == |ks|
  {
    if n == 0 then Games([], map[])
    else AddToGame(GroupUpTo(qs, ks, n - 1), ks[n - 1], qs[n - 1])
  }

  function Group(table: map<string, string>, qs: seq<GameOdds>): Games
  {
    GroupUpTo(qs, Keys(table, qs), |qs|)
  }

  /** Reference definition of a bucket: the quotes among the first `n` of
      `qs` whose key is `key`, in their order in `qs`. */
  function Select(qs: seq<GameOdds>, ks: seq<string>, key: string, n: nat): seq<GameOdds>
    requires n <= |qs| == |ks|
  {
    if n == 0 then []
    else Select(qs, ks, key, n - 1) + (if ks[n - 1] == key then [qs[n - 1]] else [])
  }

  lemma {:induction false} SelectMembers(qs: seq<GameOdds>, ks: seq<string>, key: string, n: nat)
    requires n <= |qs| == |ks|
    ensures forall q :: q in Select(qs, ks, key, n) <==> exists i :: 0 <= i < n && qs[i] == q && ks[i] == key
  {
    if n > 0 {
      SelectMembers(qs, ks, key, n - 1);
    }
  }

  lemma {:induction false} SelectNoMatch(qs: seq<GameOdds>, ks: seq<string>, key: string, n: nat)
    requires n <= |qs| == |ks|
    requires forall i :: 0 <= i < n ==> ks[i] != key
    ensures Select(qs, ks, key, n) == []
  {
    if n > 0 {
      SelectNoMatch(qs, ks, key, n - 1);
    }
  }

  /** `k` occurs among the first `m` of `ks`. */
  ghost predicate OccursBefore(ks: seq<string>, k: string, m: int)
  {
    exists i :: 0 <= i < m && i < |ks| && ks[i] == k
  }

  /** If position `j` of `ks` holds the key listed `b`-th, the key listed
      `a`-th (a < b) occurs earlier in `ks`. */
  ghost predicate FirstBefore(ks: seq<string>, keys: seq<string>, a: int, b: int, j: int)
  {
    0 <= a < b < |keys| && 0 <= j < |ks| && ks[j] == keys[b] ==> OccursBefore(ks, keys[a], j)
  }

  /** `keys` lists keys in the order of their first occurrence among the
      first `n` of `ks`: every occurrence of a later key comes after some
      occurrence of each earlier key. */
  ghost predicate KeysInFirstOrder(ks: seq<string>, keys: seq<string>, n: nat)
  {
    forall a, b, j :: 0 <= j < n ==> FirstBefore(ks, keys, a, b, j)
  }

  /** The dictionary's keys are distinct, are exactly the keys of the quotes
      added so far, and are listed in the order each was first added. */
  lemma {:induction false} GroupKeys(qs: seq<GameOdds>, ks: seq<string>, n: nat)
    requires n <= |qs| == |ks|
    ensures WellFormed(GroupUpTo(qs, ks, n))
    ensures forall k :: k in GroupUpTo(qs, ks, n).buckets <==> k in ks[..n]
    ensures KeysInFirstOrder(ks, GroupUpTo(qs, ks, n).keys, n)
  {
    if n > 0 {
      GroupKeys(qs, ks, n - 1);
      assert ks[..n] == ks[..n - 1] + [ks[n - 1]];
      AddToGameFirstOrder(ks, GroupUpTo(qs, ks, n - 1), n, qs[n - 1]);
    }
  }

  /** Adding the quote at position `n - 1` keeps the keys in first-occurrence
      order: a new key goes last, and every earlier key already occurred. */
  lemma AddToGameFirstOrder(ks: seq<string>, g: Games, n: nat, q: GameOdds)
    requires 0 < n <= |ks|
    requires WellFormed(g) && forall k :: k in g.buckets <==> k in ks[..n - 1]
    requires KeysInFirstOrder(ks, g.keys, n - 1)
    ensures KeysInFirstOrder(ks, AddToGame(g, ks[n - 1], q).keys, n)
  {
    forall a | 0 <= a < |g.keys|
      ensures OccursBefore(ks, g.keys[a], n - 1)
    {
      assert g.keys[a] in g.keys;
      var i :| 0 <= i < n - 1 && ks[..n - 1][i] == g.keys[a];
      assert ks[i] == g.keys[a];
    }
    forall i | 0 <= i < n - 1
      ensures ks[i] in g.keys
    {
      assert ks[..n - 1][i] == ks[i];
    }
    assert ks[n - 1] in g.keys <==> ks[n - 1] in g.buckets;
    FirstOrderStep(ks, g.keys, AddToGame(g, ks[n - 1], q).keys, n);
  }

  /** The step of `AddToGameFirstOrder` on the key lists alone: `keys` lists
      exactly the keys among the first `n - 1` of `ks`, in first-occurrence
      order, and `keys'` is `keys` with `ks[n - 1]` appended when it is new. */
  lemma FirstOrderStep(ks: seq<string>, keys: seq<string>, keys': seq<string>, n: nat)
    requires 0 < n <= |ks|
    requires KeysInFirstOrder(ks, keys, n - 1)
    requires forall a :: 0 <= a < |keys| ==> OccursBefore(ks, keys[a], n - 1)
    requires forall i :: 0 <= i < n - 1 ==> ks[i] in keys
    requires keys' == keys || (ks[n - 1] !in keys && keys' == keys + [ks[n - 1]])
    ensures KeysInFirstOrder(ks, keys', n)
  {
    forall a, b, j | 0 <= j < n
      ensures FirstBefore(ks, keys', a, b, j)
    {
      if 0 <= a < b < |keys'| && j < |ks| && ks[j] == keys'[b] {
        assert keys'[a] == keys[a];
        if j == n - 1 {
          assert OccursBefore(ks, keys[a], n - 1);
        } else if b < |keys| {
          assert keys'[b] == keys[b] && FirstBefore(ks, keys, a, b, j);
        }
      }
    }
  }

  /** Each bucket holds exactly the quotes with its key, in encounter order. */
  lemma {:induction false} GroupBuckets(qs: seq<GameOdds>, ks: seq<string>, n: nat)
    requires n <= |qs| == |ks|
    ensures forall k :: k in GroupUpTo(qs, ks, n).buckets ==> GroupUpTo(qs, ks, n).buckets[k] == Select(qs, ks, k, n)
  {
    if n > 0 {
      GroupBuckets(qs, ks, n - 1);
      var prev := GroupUpTo(qs, ks, n - 1);
      if ks[n - 1] !in prev.buckets {
        GroupKeys(qs, ks, n - 1);
        assert forall i :: 0 <= i < n - 1 ==> ks[i] == ks[..n - 1][i];
        SelectNoMatch(qs, ks, ks[n - 1], n - 1);
      }
      AddToGameBuckets(qs, ks, n, prev);
    }
  }

  lemma AddToGameBuckets(qs: seq<GameOdds>, ks: seq<string>, n: nat, prev: Games)
    requires 0 < n <= |qs| == |ks|
    requires forall k :: k in prev.buckets ==> prev.buckets[k] == Select(qs, ks, k, n - 1)
    requires ks[n - 1] in prev.buckets || Select(qs, ks, ks[n - 1], n - 1) == []
    ensures forall k :: k in AddToGame(prev, ks[n - 1], qs[n - 1]).buckets ==>
      AddToGame(prev, ks[n - 1], qs[n - 1]).buckets[k] == Select(qs, ks, k, n)
  {
  }

  lemma {:induction false} GroupNonEmpty(qs: seq<GameOdds>, ks: seq<string>, n: nat)
    requires n <= |qs| == |ks|
    ensures forall k :: k in GroupUpTo(qs, ks, n).buckets ==> GroupUpTo(qs, ks, n).buckets[k] != []
  {
    if n > 0 {
      GroupNonEmpty(qs, ks, n - 1);
    }
  }

  function Size(m: map<string, seq<GameOdds>>, k: string): nat
  {
    if k in m then |m[k]| else 0
  }

  /** Sum of the sizes of the buckets named in `keys`. */
  function SumSizes(keys: seq<string>, m: map<string, seq<GameOdds>>): nat
  {
    if |keys| == 0 then 0 else SumSizes(keys[..|keys| - 1], m) + Size(m, keys[|keys| - 1])
  }

  lemma {:induction false} SumSizesUpdate(keys: seq<string>, m: map<string, seq<GameOdds>>, k: string, v: seq<GameOdds>)
    requires forall i, j :: 0 <= i < j < |keys| ==> keys[i] != keys[j]
    ensures k in keys ==> SumSizes(keys, m[k := v]) + Size(m, k) == SumSizes(keys, m) + |v|
    ensures k !in keys ==> SumSizes(keys, m[k := v]) == SumSizes(keys, m)
  {
    if |keys| > 0 {
      var init, last := keys[..|keys| - 1], keys[|keys| - 1];
      SumSizesUpdate(init, m, k, v);
      assert keys == init + [last];
      if k == last {
        assert k !in init;
      }
    }
  }

  lemma {:induction false} GroupSize(qs: seq<GameOdds>, ks: seq<string>, n: nat)
    requires n <= |qs| == |ks|
    ensures SumSizes(GroupUpTo(qs, ks, n).keys, GroupUpTo(qs, ks, n).buckets) == n
  {
    if n > 0 {
      GroupSize(qs, ks, n - 1);
      GroupKeys(qs, ks, n - 1);
      AddToGameSize(GroupUpTo(qs, ks, n - 1), ks[n - 1], qs[n - 1]);
    }
  }

  /** Adding one quote to a well-formed grouping adds one to the sum of the
      bucket sizes. */
  lemma AddToGameSize(g: Games, key: string, q: GameOdds)
    requires WellFormed(g)
    ensures var g' := AddToGame(g, key, q); SumSizes(g'.keys, g'.buckets) == SumSizes(g.keys, g.buckets) + 1
  {
    if key in g.buckets {
      SumSizesUpdate(g.keys, g.buckets, key, g.buckets[key] + [q]);
    } else {
      SumSizesUpdate(g.keys, g.buckets, key, [q]);
      var g' := AddToGame(g, key, q);
      assert g'.keys[..|g'.keys| - 1] == g.keys;
    }
  }

  /** Grouping is a partition of the quotes: the keys are distinct and
      exactly the game keys of the quotes, each bucket holds exactly the
      quotes with its key in encounter order, no bucket is empty, and the
      bucket sizes add up to the number of quotes. */
  lemma GroupIsPartition(table: map<string, string>, qs: seq<GameOdds>)
    ensures WellFormed(Group(table, qs))
    ensures forall k :: k in Group(table, qs).buckets <==> exists i :: 0 <= i < |qs| && QuoteKey(table, qs[i]) == k
    ensures forall k, q :: k in Group(table, qs).buckets ==>
      (q in Group(table, qs).buckets[k] <==> q in qs && QuoteKey(table, q) == k)
    ensures forall k :: k in Group(table, qs).buckets ==> Group(table, qs).buckets[k] != []
    ensures SumSizes(Group(table, qs).keys, Group(table, qs).buckets) == |qs|
    ensures KeysInFirstOrder(Keys(table, qs), Group(table, qs).keys, |qs|)
  {
    hide GroupUpTo, Select, SumSizes;
    var ks := Keys(table, qs);
    GroupKeys(qs, ks, |qs|);
    GroupBuckets(qs, ks, |qs|);
    GroupNonEmpty(qs, ks, |qs|);
    GroupSize(qs, ks, |qs|);
    assert ks[..|qs|] == ks;
    forall k | k in Group(table, qs).buckets
      ensures forall q :: q in Group(table, qs).buckets[k] <==> q in qs && QuoteKey(table, q) == k
    {
      SelectMembers(qs, ks, k, |qs|);
    }
  }

  /** Bucket order is the order of `Select`: within a bucket, quotes keep
      their order in the input. */
  lemma GroupKeepsOrder(table: map<string, string>, qs: seq<GameOdds>)
    ensures forall k :: k in Group(table, qs).buckets ==>
      Group(table, qs).buckets[k] == Select(qs, Keys(table, qs), k, |qs|)
  {
    GroupBuckets(qs, Keys(table, qs), |qs|);
  }

  /** Quotes that list the same two teams, in either order, share a bucket. */
  lemma SwappedQuotesShareBucket(table: map<string, string>, qs: seq<GameOdds>, x: nat, y: nat)
    requires x < |qs| && y < |qs|
    requires qs[y].team1 == qs[x].team2 && qs[y].team2 == qs[x].team1
    ensures var g := Group(table, qs); var k := QuoteKey(table, qs[x]);
      k in g.buckets && qs[x] in g.buckets[k] && qs[y] in g.buckets[k]
  {
    QuoteKeySymmetric(table, qs[x], qs[y]);
    GroupIsPartition(table, qs);
  }

  /** The inner loop of `_get_all_games`: the quotes of one book, in order,
      each appended to the bucket of its game key (the bucket opened first
      when the key is new). `all` is the flattened input, `ks` its keys, and
      the book's quotes sit in `all` from `offset` on. */
  method AddBook(table: map<string, string>, games: Games, oddsList: seq<GameOdds>,
                 ghost all: seq<GameOdds>, ghost ks: seq<string>, ghost offset: nat)
    returns (games': Games)
    requires BookSitsAt(table, all, ks, offset, oddsList)
    requires games == GroupUpTo(all, ks, offset)
    ensures games' == GroupUpTo(all, ks, offset + |oddsList|)
  {
    games' := games;
    ghost var position := offset;
    for i := 0 to |oddsList|
      invariant position == offset + i
      invariant games' == GroupUpTo(all, ks, position)
    {
      var odds := oddsList[i];
      var team1Std := TeamMapper.StandardizeTeamName(table, odds.team1);
      var team2Std := TeamMapper.StandardizeTeamName(table, odds.team2);
      var gameKey := GameKey(team1Std, team2Std);
      assert all[position] == odds && ks[position] == gameKey;
      games' := AddQuote(games', gameKey, odds, all, ks, position);
      position := position + 1;
    }
  }

  /** One step of `_get_all_games`: open the bucket of `key` when it is
      new, then append `q` to it. Adding quote `n` of `all` this way takes
      the dictionary of the first `n` quotes to that of the first `n + 1`. */
  method AddQuote(games: Games, key: string, q: GameOdds, ghost all: seq<GameOdds>, ghost ks: seq<string>, ghost n: nat)
    returns (games': Games)
    requires n < |all| == |ks| && all[n] == q && ks[n] == key
    requires games == GroupUpTo(all, ks, n)
    ensures games' == GroupUpTo(all, ks, n + 1)
  {
    games' := games;
    if key !in games'.buckets {
      games' := Games(games'.keys + [key], games'.buckets[key := []]);
      assert [] + [q] == [q];
    }
    games' := games'.(buckets := games'.buckets[key := games'.buckets[key] + [q]]);
  }

  /** The quotes `oddsList` sit in `all` from position `offset` on, and `ks`
      holds their game keys at the same positions. */
  ghost predicate BookSitsAt(table: map<string, string>, all: seq<GameOdds>, ks: seq<string>,
                             offset: nat, oddsList: seq<GameOdds>)
  {
    && |ks| == |all|
    && offset + |oddsList| <= |all|
    && forall i :: 0 <= i < |oddsList| ==> all[offset + i] == oddsList[i] && ks[offset + i] == QuoteKey(table, oddsList[i])
  }

  /** The quote at position `t` of book `b`'s stretch of the flattened list. */
  lemma FlattenAtIndex(allOdds: AllOdds, b: nat, t: int)
    requires b < |allOdds|
    requires |Flatten(allOdds[..b])| <= t < |Flatten(allOdds[..b])| + |allOdds[b].1|
    ensures t < |Flatten(allOdds)| && Flatten(allOdds)[t] == allOdds[b].1[t - |Flatten(allOdds[..b])|]
  {
    FlattenAt(allOdds, b);
  }

  /** `all` lists every quote of `allOdds`, book after book, and `ks` their
      game keys. */
  ghost predicate Flattened(table: map<string, string>, allOdds: AllOdds, all: seq<GameOdds>, ks: seq<string>)
  {
    all == Flatten(allOdds) && ks == Keys(table, all)
  }

  /** Where the quotes of book `b` start in the flattened input. */
  ghost function Offset(allOdds: AllOdds, b: nat): nat
    requires b <= |allOdds|
  {
    |Flatten(allOdds[..b])|
  }

  /** The books' stretches start at 0 and end at the length of the whole. */
  lemma OffsetBounds(table: map<string, string>, allOdds: AllOdds, all: seq<GameOdds>, ks: seq<string>)
    requires Flattened(table, allOdds, all, ks)
    ensures Offset(allOdds, 0) == 0 && Offset(allOdds, |allOdds|) == |all| == |ks|
  {
    assert allOdds[..0] == [];
    assert allOdds[..|allOdds|] == allOdds;
  }

  /** The quotes of book `b` and their keys, as they sit in the flattened
      input and its key list from `offset` on. */
  lemma BookInAll(table: map<string, string>, allOdds: AllOdds, b: nat, all: seq<GameOdds>, ks: seq<string>, offset: nat)
    requires b < |allOdds| && Flattened(table, allOdds, all, ks)
    requires offset == Offset(allOdds, b)
    ensures Offset(allOdds, b + 1) == offset + |allOdds[b].1| <= |all|
    ensures BookSitsAt(table, all, ks, offset, allOdds[b].1)
  {
    FlattenAt(allOdds, b);
    var q := allOdds[b].1;
    forall i | 0 <= i < |q|
      ensures all[offset + i] == q[i] && ks[offset + i] == QuoteKey(table, q[i])
    {
      FlattenAtIndex(allOdds, b, offset + i);
      assert offset + i - offset == i;
    }
  }

  /** `_get_all_games`: book by book, quote by quote, append each quote to
      the bucket of its game key. */
  method GetAllGames(table: map<string, string>, allOdds: AllOdds) returns (games: Games)
    ensures games == Group(table, Flatten(allOdds))
  {
    ghost var all := Flatten(allOdds);
    ghost var ks := Keys(table, all);
    games := AddBooks(table, allOdds, all, ks);
  }

  /** The outer loop of `_get_all_games`: every book's quotes, book after
      book, added to the games grouped so far. */
  method AddBooks(table: map<string, string>, allOdds: AllOdds, ghost all: seq<GameOdds>, ghost ks: seq<string>)
    returns (games: Games)
    requires Flattened(table, allOdds, all, ks)
    ensures games == GroupUpTo(all, ks, |all|)
  {
    games := Games([], map[]);
    ghost var position := 0;
    OffsetBounds(table, allOdds, all, ks);
    assert games == GroupUpTo(all, ks, position);
    hide Offset, GroupUpTo, Flattened;
    for b := 0 to |allOdds|
      invariant position == Offset(allOdds, b) <= |all|
      invariant games == GroupUpTo(all, ks, position)
    {
      games, position := AddNthBook(table, allOdds, b, all, ks, games, position);
    }
  }

  /** One round of the outer loop of `_get_all_games`: the quotes of book
      `b` added to the grouping of the books before it. */
  method AddNthBook(table: map<string, string>, allOdds: AllOdds, b: nat, ghost all: seq<GameOdds>,
                    ghost ks: seq<string>, games: Games, ghost offset: nat)
    returns (games': Games, ghost offset': nat)
    requires b < |allOdds| && Flattened(table, allOdds, all, ks)
    requires offset == Offset(allOdds, b) <= |all| == |ks| && games == GroupUpTo(all, ks, offset)
    ensures offset' == Offset(allOdds, b + 1) <= |all|
    ensures games' == GroupUpTo(all, ks, offset')
  {
    hide *;
    BookInAll(table, allOdds, b, all, ks, offset);
    games' := AddBook(table, games, allOdds[b].1, all, ks, offset);
    offset' := offset + |allOdds[b].1|;
  }


  // ---------------------------------------------------------------------------
  // Pairs examined

  type Pair = (GameOdds, GameOdds)

  /** The pairs (b[i], b[k]) for i < k < j, in increasing k. */
  function RowPairs<T>(b: seq<T>, i: nat, j: nat): seq<(T, T)>
    requires i < |b| && j <= |b|
  {
    if j <= i + 1 then [] else RowPairs(b, i, j - 1) + [(b[i], b[j - 1])]
  }

  /** The pairs of rows 0 .. i-1 of a bucket, row after row. */
  function PairsUpTo<T>(b: seq<T>, i: nat): seq<(T, T)>
    requires i <= |b|
  {
    if i == 0 then [] else PairsUpTo(b, i - 1) + RowPairs(b, i - 1, |b|)
  }

  function Bucket(games: Games, g: nat): seq<GameOdds>
    requires g < |games.keys|
  {
    if games.keys[g] in games.buckets then games.buckets[games.keys[g]] else []
  }

  /** The pairs of the first `g` buckets, bucket after bucket. */
  function GamePairs(games: Games, g: nat): seq<Pair>
    requires g <= |games.keys|
  {
    if g == 0 then [] else GamePairs(games, g - 1) + PairsUpTo(Bucket(games, g - 1), |Bucket(games, g - 1)|)
  }

  lemma {:induction false} RowPairsAt<T>(b: seq<T>, i: nat, j: nat)
    requires i < |b| && j <= |b|
    ensures |RowPairs(b, i, j)| == if j <= i + 1 then 0 else j - i - 1
    ensures forall k :: 0 <= k < |RowPairs(b, i, j)| ==> RowPairs(b, i, j)[k] == (b[i], b[i + 1 + k])
  {
    if j > i + 1 {
      RowPairsAt(b, i, j - 1);
    }
  }

  /** A bucket of n quotes is examined in n(n-1)/2 pairs. */
  lemma {:induction false} PairsUpToLength<T>(b: seq<T>, i: nat)
    requires i <= |b|
    ensures 2 * |PairsUpTo(b, i)| == i * (2 * |b| - i - 1)
  {
    if i > 0 {
      PairsUpToLength(b, i - 1);
      RowPairsAt(b, i - 1, |b|);
      TriangleStep(i, |b|);
    }
  }

  lemma TriangleStep(i: int, n: int)
    ensures i * (2 * n - i - 1) == (i - 1) * (2 * n - (i - 1) - 1) + 2 * (n - i)
  {
    var m := 2 * n - i;
    assert 2 * n - (i - 1) - 1 == m;
    assert i * (m - 1) == i * m - i;
    assert (i - 1) * m == i * m - m;
  }

  /** Only index pairs x < y of a bucket are examined ... */
  lemma {:induction false} PairsUpToSound<T>(b: seq<T>, i: nat)
    requires i <= |b|
    ensures forall p :: p in PairsUpTo(b, i) ==>
      exists x, y :: 0 <= x < i && x < y < |b| && p == (b[x], b[y])
  {
    if i > 0 {
      PairsUpToSound(b, i - 1);
      RowPairsAt(b, i - 1, |b|);
      var row := RowPairs(b, i - 1, |b|);
      forall p | p in PairsUpTo(b, i)
        ensures exists x, y :: 0 <= x < i && x < y < |b| && p == (b[x], b[y])
      {
        if p !in PairsUpTo(b, i - 1) {
          var k :| 0 <= k < |row| && row[k] == p;
          assert p == (b[i - 1], b[i + k]);
        }
      }
    }
  }

  /** ... and every one of them is. */
  lemma PairInPairsUpTo<T>(b: seq<T>, i: nat, x: nat, y: nat)
    requires i <= |b| && x < i && x < y < |b|
    ensures (b[x], b[y]) in PairsUpTo(b, i)
  {
    var pre, row := PairsUpTo(b, x), RowPairs(b, x, |b|);
    RowPairsAt(b, x, |b|);
    PairsUpToPrefix(b, x + 1, i);
    assert PairsUpTo(b, x + 1) == pre + row;
    var k := |pre| + (y - x - 1);
    assert (pre + row)[k] == row[y - x - 1] == (b[x], b[y]);
    assert PairsUpTo(b, i)[k] == (b[x], b[y]);
  }

  lemma PairsUpToComplete<T>(b: seq<T>, i: nat)
    requires i <= |b|
    ensures forall x, y :: 0 <= x < i && x < y < |b| ==> (b[x], b[y]) in PairsUpTo(b, i)
  {
    forall x, y | 0 <= x < i && x < y < |b|
      ensures (b[x], b[y]) in PairsUpTo(b, i)
    {
      PairInPairsUpTo(b, i, x, y);
    }
  }

  lemma {:induction false} PairsUpToPrefix<T>(b: seq<T>, i: nat, i': nat)
    requires i <= i' <= |b|
    ensures PairsUpTo(b, i) <= PairsUpTo(b, i')
  {
    if i < i' {
      PairsUpToPrefix(b, i, i' - 1);
    }
  }

  lemma {:induction false} GamePairsPrefix(games: Games, g: nat, g': nat)
    requires g <= g' <= |games.keys|
    ensures GamePairs(games, g) <= GamePairs(games, g')
  {
    if g < g' {
      GamePairsPrefix(games, g, g' - 1);
    }
  }

  // ---------------------------------------------------------------------------
  // Scenarios of a pair

  datatype Side = Team1 | Team2

  /** One way of backing both outcomes with a pair of quotes: the side of
      book 1's quote and the side of book 2's quote that are backed. */
  datatype Scenario = Scenario(
    book1Side: Side,
    book2Side: Side,
    book1Odds: int,
    book2Odds: int,
    book1Url: string,
    book2Url: string,
    team1Std: string,
    team2Std: string)

  function OddsOf(q: GameOdds, s: Side): int
  {
    if s == Team1 then q.team1Odds else q.team2Odds
  }

  function UrlOf(q: GameOdds, s: Side): string
  {
    if s == Team1 then q.team1Url else q.team2Url
  }

  function TeamOf(q: GameOdds, s: Side): string
  {
    if s == Team1 then q.team1 else q.team2
  }

  /** Price, link and standardised team of a scenario all come from the side
      it names, on each of the two quotes. */
  ghost predicate DrawnFrom(table: map<string, string>, o1: GameOdds, o2: GameOdds, s: Scenario)
  {
    && s.book1Odds == OddsOf(o1, s.book1Side)
    && s.book1Url == UrlOf(o1, s.book1Side)
    && s.team1Std == TeamMapper.StandardizeTeamName(table, TeamOf(o1, s.book1Side))
    && s.book2Odds == OddsOf(o2, s.book2Side)
    && s.book2Url == UrlOf(o2, s.book2Side)
    && s.team2Std == TeamMapper.StandardizeTeamName(table, TeamOf(o2, s.book2Side))
  }

  /** The two scenarios of a pair: when both quotes list the same team first,
      book 1's first team against book 2's second team, then the reverse;
      otherwise the quotes are taken to be listed crossed, and first team is
      backed against first team, then second against second. */
  function Scenarios(table: map<string, string>, o1: GameOdds, o2: GameOdds): (r: seq<Scenario>)
    ensures |r| == 2
    ensures DrawnFrom(table, o1, o2, r[0]) && DrawnFrom(table, o1, o2, r[1])
    ensures r[0].book1Side == Team1 && r[1].book1Side == Team2
    ensures r[0].book2Side != r[1].book2Side
    ensures r[0].book2Side == Team2 <==> TeamMapper.StandardizeTeamName(table, o1.team1) == TeamMapper.StandardizeTeamName(table, o2.team1)
  {
    var o1Team1Std := TeamMapper.StandardizeTeamName(table, o1.team1);
    var o1Team2Std := TeamMapper.StandardizeTeamName(table, o1.team2);
    var o2Team1Std := TeamMapper.StandardizeTeamName(table, o2.team1);
    var o2Team2Std := TeamMapper.StandardizeTeamName(table, o2.team2);
    if o1Team1Std == o2Team1Std then
      [Scenario(Team1, Team2, o1.team1Odds, o2.team2Odds, o1.team1Url, o2.team2Url, o1Team1Std, o2Team2Std),
       Scenario(Team2, Team1, o1.team2Odds, o2.team1Odds, o1.team2Url, o2.team1Url, o1Team2Std, o2Team1Std)]
    else
      [Scenario(Team1, Team1, o1.team1Odds, o2.team1Odds, o1.team1Url, o2.team1Url, o1Team1Std, o2Team1Std),
       Scenario(Team2, Team2, o1.team2Odds, o2.team2Odds, o1.team2Url, o2.team2Url, o1Team2Std, o2Team2Std)]
  }

  function ScenarioProfit(s: Scenario): real
  {
    Pricing.ArbitrageProfit(s.book1Odds, s.book2Odds)
  }

  /** A scenario may be kept: it reaches the threshold and beats the floor. */
  ghost predicate Qualifies(s: Scenario, minProfit: real)
  {
    ScenarioProfit(s) > ProfitFloor && ScenarioProfit(s) >= minProfit
  }

  function BestProfit(ss: seq<Scenario>, best: Option<nat>): real
  {
    if best.Some? && best.value < |ss| then ScenarioProfit(ss[best.value]) else ProfitFloor
  }

  /** The index of the scenario the selection loop holds after the first `n`
      scenarios: a later one replaces it only with a strictly greater profit
      that also reaches the threshold. */
  function BestUpTo(ss: seq<Scenario>, minProfit: real, n: nat): (r: Option<nat>)
    requires n <= |ss|
    ensures r.Some? ==> r.value < n
  {
    if n == 0 then None
    else
      var prev := BestUpTo(ss, minProfit, n - 1);
      var p := ScenarioProfit(ss[n - 1]);
      if p > BestProfit(ss, prev) && p >= minProfit then Some(n - 1) else prev
  }

  /** The selection keeps nothing exactly when no scenario qualifies. */
  lemma {:induction false} BestUpToNone(ss: seq<Scenario>, minProfit: real, n: nat)
    requires n <= |ss|
    ensures BestUpTo(ss, minProfit, n).None? <==> forall t :: 0 <= t < n ==> !Qualifies(ss[t], minProfit)
  {
    hide ScenarioProfit;
    if n > 0 {
      BestUpToNone(ss, minProfit, n - 1);
      var prev := BestUpTo(ss, minProfit, n - 1);
      if prev.Some? {
        assert BestUpTo(ss, minProfit, n).Some?;
      } else {
        assert BestProfit(ss, prev) == ProfitFloor;
        assert BestUpTo(ss, minProfit, n).None? <==> !Qualifies(ss[n - 1], minProfit);
      }
    }
  }

  /** What the selection keeps qualifies, has the greatest profit among the
      qualifying scenarios, and is strictly better than every earlier one. */
  lemma {:induction false} BestUpToMaximum(ss: seq<Scenario>, minProfit: real, n: nat)
    requires n <= |ss|
    ensures BestUpTo(ss, minProfit, n).Some? ==>
      var k := BestUpTo(ss, minProfit, n).value;
      && Qualifies(ss[k], minProfit)
      && (forall t :: 0 <= t < n && Qualifies(ss[t], minProfit) ==> ScenarioProfit(ss[t]) <= ScenarioProfit(ss[k]))
      && (forall t :: 0 <= t < k && Qualifies(ss[t], minProfit) ==> ScenarioProfit(ss[t]) < ScenarioProfit(ss[k]))
  {
    hide ScenarioProfit;
    if n > 0 {
      BestUpToMaximum(ss, minProfit, n - 1);
      BestUpToNone(ss, minProfit, n - 1);
      var prev := BestUpTo(ss, minProfit, n - 1);
      var p := ScenarioProfit(ss[n - 1]);
      if p > BestProfit(ss, prev) && p >= minProfit {
        assert BestUpTo(ss, minProfit, n) == Some(n - 1);
        assert BestProfit(ss, prev) >= ProfitFloor;
      } else {
        assert BestUpTo(ss, minProfit, n) == prev;
      }
    }
  }

  /** The selection keeps the first scenario of greatest profit among those
      that qualify, and nothing when none qualifies. */
  lemma BestUpToIsFirstMaximum(ss: seq<Scenario>, minProfit: real, n: nat)
    requires n <= |ss|
    ensures BestUpTo(ss, minProfit, n).None? <==> forall t :: 0 <= t < n ==> !Qualifies(ss[t], minProfit)
    ensures BestUpTo(ss, minProfit, n).Some? ==>
      var k := BestUpTo(ss, minProfit, n).value;
      && Qualifies(ss[k], minProfit)
      && (forall t :: 0 <= t < n && Qualifies(ss[t], minProfit) ==> ScenarioProfit(ss[t]) <= ScenarioProfit(ss[k]))
      && (forall t :: 0 <= t < k && Qualifies(ss[t], minProfit) ==> ScenarioProfit(ss[t]) < ScenarioProfit(ss[k]))
  {
    BestUpToNone(ss, minProfit, n);
    BestUpToMaximum(ss, minProfit, n);
  }

  // ---------------------------------------------------------------------------
  // Checking one pair

  /** The outcome of examining one pair: no opportunity, one opportunity, or
      the ZeroDivisionError that sizing the bets raises on a zero price. */
  function CheckSpec(table: map<string, string>, minProfit: real, o1: GameOdds, o2: GameOdds): Result<Option<ArbitrageOpportunity>>
  {
    var ss := Scenarios(table, o1, o2);
    match BestUpTo(ss, minProfit, |ss|)
    case None => Ok(None)
    case Some(k) =>
      var s := ss[k];
      if s.book1Odds == 0 || s.book2Odds == 0 then Raised(ZeroDivisionError)
      else
        var bets := Pricing.BetAmounts(s.book1Odds, s.book2Odds, TotalBet);
        Ok(Some(ArbitrageOpportunity(
          s.team1Std, s.team2Std, o1.sportsbook, o2.sportsbook, s.book1Url, s.book2Url,
          s.book1Odds, s.book2Odds, ScenarioProfit(s), bets.0, bets.1, bets.2)))
  }

  /** A pair yields nothing exactly when neither of its scenarios qualifies. */
  lemma CheckSpecNone(table: map<string, string>, minProfit: real, o1: GameOdds, o2: GameOdds)
    ensures var ss := Scenarios(table, o1, o2);
      CheckSpec(table, minProfit, o1, o2) == Ok(None) <==> !Qualifies(ss[0], minProfit) && !Qualifies(ss[1], minProfit)
  {
    var ss := Scenarios(table, o1, o2);
    BestUpToIsFirstMaximum(ss, minProfit, |ss|);
  }

  /** Scenario `k` is the one the selection keeps: it qualifies, no qualifying
      scenario has a greater profit, and every earlier qualifying scenario has
      a strictly smaller one. */
  ghost predicate FirstBest(ss: seq<Scenario>, minProfit: real, k: int)
  {
    && 0 <= k < |ss|
    && Qualifies(ss[k], minProfit)
    && (forall t :: 0 <= t < |ss| && Qualifies(ss[t], minProfit) ==> ScenarioProfit(ss[t]) <= ScenarioProfit(ss[k]))
    && (forall t :: 0 <= t < k && Qualifies(ss[t], minProfit) ==> ScenarioProfit(ss[t]) < ScenarioProfit(ss[k]))
  }

  /** At most one scenario is the first best. */
  lemma FirstBestUnique(ss: seq<Scenario>, minProfit: real, j: int, k: int)
    requires FirstBest(ss, minProfit, j) && FirstBest(ss, minProfit, k)
    ensures j == k
  {
  }

  /** Examining a pair raises exactly when the scenario the selection keeps
      (the first qualifying one of greatest profit) has a zero price. */
  lemma CheckSpecRaised(table: map<string, string>, minProfit: real, o1: GameOdds, o2: GameOdds)
    ensures var ss := Scenarios(table, o1, o2);
      CheckSpec(table, minProfit, o1, o2).Raised? <==>
        exists k :: FirstBest(ss, minProfit, k) && (ss[k].book1Odds == 0 || ss[k].book2Odds == 0)
    ensures var ss := Scenarios(table, o1, o2);
      CheckSpec(table, minProfit, o1, o2).Raised? ==>
        exists s :: s in ss && Qualifies(s, minProfit) && (s.book1Odds == 0 || s.book2Odds == 0)
    ensures CheckSpec(table, minProfit, o1, o2).Raised? ==> CheckSpec(table, minProfit, o1, o2).exception == ZeroDivisionError
  {
    var ss := Scenarios(table, o1, o2);
    BestUpToIsFirstMaximum(ss, minProfit, |ss|);
    var best := BestUpTo(ss, minProfit, |ss|);
    if best.Some? {
      var j := best.value;
      assert FirstBest(ss, minProfit, j);
      assert ss[j] in ss;
      forall k | FirstBest(ss, minProfit, k)
        ensures k == j
      {
        FirstBestUnique(ss, minProfit, j, k);
      }
    }
  }

  /** An opportunity found for a pair is the best qualifying scenario of the
      pair, with the books copied from the two quotes. */
  lemma CheckSpecChoosesBest(table: map<string, string>, minProfit: real, o1: GameOdds, o2: GameOdds)
    ensures var ss := Scenarios(table, o1, o2); var r := CheckSpec(table, minProfit, o1, o2);
      r.Ok? && r.value.Some? ==>
        var o := r.value.value;
        && o.book1 == o1.sportsbook && o.book2 == o2.sportsbook
        && o.profitPercentage >= minProfit && o.profitPercentage > ProfitFloor
        && o.profitPercentage == Pricing.ArbitrageProfit(o.book1Odds, o.book2Odds)
        && (exists k :: FirstBest(ss, minProfit, k) && o.book1Odds == ss[k].book1Odds
              && o.book2Odds == ss[k].book2Odds && o.book1Url == ss[k].book1Url && o.book2Url == ss[k].book2Url
              && o.team1 == ss[k].team1Std && o.team2 == ss[k].team2Std)
        && (forall s :: s in ss && Qualifies(s, minProfit) ==> ScenarioProfit(s) <= o.profitPercentage)
  {
    var ss := Scenarios(table, o1, o2);
    BestUpToIsFirstMaximum(ss, minProfit, |ss|);
    var r := CheckSpec(table, minProfit, o1, o2);
    if r.Ok? && r.value.Some? {
      var k := BestUpTo(ss, minProfit, |ss|).value;
      assert FirstBest(ss, minProfit, k);
      forall s | s in ss && Qualifies(s, minProfit)
        ensures ScenarioProfit(s) <= r.value.value.profitPercentage
      {
        var t :| 0 <= t < |ss| && ss[t] == s;
      }
    }
  }

  /** An opportunity found for a pair has non-zero prices, stakes that add
      up to the total bet, equal returns on both legs, and a guaranteed
      profit that is non-negative exactly when its percentage is. */
  lemma CheckSpecStakes(table: map<string, string>, minProfit: real, o1: GameOdds, o2: GameOdds)
    ensures var r := CheckSpec(table, minProfit, o1, o2);
      r.Ok? && r.value.Some? ==>
        var o := r.value.value;
        && o.book1Odds != 0 && o.book2Odds != 0
        && o.bet1Amount + o.bet2Amount == TotalBet
        && o.bet1Amount * Pricing.DecimalOdds(o.book1Odds) == o.bet2Amount * Pricing.DecimalOdds(o.book2Odds)
        && o.totalProfit == o.bet1Amount * Pricing.DecimalOdds(o.book1Odds) - TotalBet
        && (o.totalProfit >= 0.0 <==> o.profitPercentage >= 0.0)
  {
    hide Pricing.BetAmounts, Pricing.DecimalOdds, Pricing.ImpliedProbability;
    var ss := Scenarios(table, o1, o2);
    var r := CheckSpec(table, minProfit, o1, o2);
    if r.Ok? && r.value.Some? {
      var s := ss[BestUpTo(ss, minProfit, |ss|).value];
      var bets := Pricing.BetAmounts(s.book1Odds, s.book2Odds, TotalBet);
      var o := r.value.value;
      assert o.book1Odds == s.book1Odds && o.book2Odds == s.book2Odds;
      assert o.bet1Amount == bets.0 && o.bet2Amount == bets.1 && o.totalProfit == bets.2;
      assert o.profitPercentage == Pricing.ArbitrageProfit(s.book1Odds, s.book2Odds);
      Pricing.TotalProfitSign(s.book1Odds, s.book2Odds, bets.0, bets.1, TotalBet);
    }
  }

  /** With the default threshold, a pair of quotes for the same game from
      two books (+150/-180 and -140/+160) backs the first team at the first
      book and the second team at the second book. */
  lemma TwoBookExample()
    ensures var o1 := GameOdds(DRAFTKINGS, "X", "Y", "u1", "u2", 150, -180);
      var o2 := GameOdds(BETMGM, "X", "Y", "v1", "v2", -140, 160);
      var r := CheckSpec(map[], DefaultMinProfitPercentage, o1, o2);
      && r.Ok? && r.value.Some?
      && r.value.value.book1Odds == 150 && r.value.value.book2Odds == 160
      && r.value.value.book1Url == "u1" && r.value.value.book2Url == "v2"
      && r.value.value.bet1Amount + r.value.value.bet2Amount == 100.0
  {
    var o1 := GameOdds(DRAFTKINGS, "X", "Y", "u1", "u2", 150, -180);
    var o2 := GameOdds(BETMGM, "X", "Y", "v1", "v2", -140, 160);
    var ss := Scenarios(map[], o1, o2);
    assert ss[0].book1Odds == 150 && ss[0].book2Odds == 160;
    assert ss[1].book1Odds == -180 && ss[1].book2Odds == -140;
    assert ScenarioProfit(ss[0]) > 2.5;
    assert ScenarioProfit(ss[1]) < 0.0;
    BestUpToIsFirstMaximum(ss, DefaultMinProfitPercentage, 2);
  }

  /** `_check_arbitrage`: build the two scenarios, keep the best under the
      strict `>` rule from a floor of -10, then size the bets. */
  method CheckArbitrage(table: map<string, string>, minProfit: real, odds1: GameOdds, odds2: GameOdds)
    returns (r: Result<Option<ArbitrageOpportunity>>)
    ensures r == CheckSpec(table, minProfit, odds1, odds2)
  {
    var scenarios := Scenarios(table, odds1, odds2);
    var best: Option<nat> := None;
    var bestProfit := ProfitFloor;
    for i := 0 to |scenarios|
      invariant best == BestUpTo(scenarios, minProfit, i)
      invariant bestProfit == BestProfit(scenarios, best)
    {
      var profitPct := Pricing.ArbitrageProfit(scenarios[i].book1Odds, scenarios[i].book2Odds);
      if profitPct > bestProfit && profitPct >= minProfit {
        bestProfit := profitPct;
        best := Some(i);
      }
    }
    if best.None? {
      return Ok(None);
    }
    var s := scenarios[best.value];
    if s.book1Odds == 0 || s.book2Odds == 0 {
      return Raised(ZeroDivisionError);
    }
    var bets := Pricing.BetAmounts(s.book1Odds, s.book2Odds, TotalBet);
    r := Ok(Some(ArbitrageOpportunity(
      s.team1Std, s.team2Std, odds1.sportsbook, odds2.sportsbook, s.book1Url, s.book2Url,
      s.book1Odds, s.book2Odds, bestProfit, bets.0, bets.1, bets.2)));
  }

  // ---------------------------------------------------------------------------
  // Collecting over all pairs

  /** The result of the first `n` pair checks: the opportunities found, in
      order, or the first exception raised (which ends the run). */
  function Accumulate<T>(outs: seq<Result<Option<T>>>, n: nat): Result<seq<T>>
    requires n <= |outs|
  {
    if n == 0 then Ok([])
    else
      var acc := Accumulate(outs, n - 1);
      if acc.Raised? then acc
      else match outs[n - 1]
        case Raised(e) => Raised(e)
        case Ok(None) => acc
        case Ok(Some(o)) => Ok(acc.value + [o])
  }

  /** Once an exception is raised, the remaining checks change nothing. */
  lemma {:induction false} AccumulateRaisedPersists<T>(outs: seq<Result<Option<T>>>, n: nat, m: nat)
    requires n <= m <= |outs| && Accumulate(outs, n).Raised?
    ensures Accumulate(outs, m) == Accumulate(outs, n)
  {
    if n < m {
      AccumulateRaisedPersists(outs, n, m - 1);
    }
  }

  /** Running the checks raises exactly when some check raises, and then the
      first exception a check raises. */
  lemma {:induction false} AccumulateRaises<T>(outs: seq<Result<Option<T>>>, n: nat)
    requires n <= |outs|
    ensures Accumulate(outs, n).Raised? <==> exists k :: 0 <= k < n && outs[k].Raised?
    ensures Accumulate(outs, n).Raised? ==>
      exists k :: 0 <= k < n && outs[k].Raised? && Accumulate(outs, n).exception == outs[k].exception
        && forall t :: 0 <= t < k ==> !outs[t].Raised?
  {
    if n > 0 {
      AccumulateRaises(outs, n - 1);
    }
  }

  /** Reference list of the positions, among the first `n` checks, whose
      check yielded an opportunity: each such position once, in increasing
      order. */
  function Found<T>(outs: seq<Result<Option<T>>>, n: nat): (idx: seq<nat>)
    requires n <= |outs|
    ensures |idx| <= n
    ensures forall j :: 0 <= j < |idx| ==> idx[j] < n && outs[idx[j]].Ok? && outs[idx[j]].value.Some?
    ensures forall j, j' :: 0 <= j < j' < |idx| ==> idx[j] < idx[j']
    ensures forall k :: 0 <= k < n && outs[k].Ok? && outs[k].value.Some? ==> k in idx
  {
    if n == 0 then []
    else if outs[n - 1].Ok? && outs[n - 1].value.Some? then Found(outs, n - 1) + [n - 1]
    else Found(outs, n - 1)
  }

  /** When no check raises, the opportunities collected are, in order, those
      of the checks at the positions `Found` lists: one per check that
      yielded one, in the order of the checks. */
  lemma {:induction false} AccumulateInOrder<T>(outs: seq<Result<Option<T>>>, n: nat)
    requires n <= |outs|
    ensures Accumulate(outs, n).Ok? ==>
      && |Accumulate(outs, n).value| == |Found(outs, n)|
      && forall j :: 0 <= j < |Found(outs, n)| ==> outs[Found(outs, n)[j]] == Ok(Some(Accumulate(outs, n).value[j]))
  {
    if n > 0 && Accumulate(outs, n).Ok? {
      AccumulateInOrder(outs, n - 1);
      var prev, idx := Accumulate(outs, n - 1).value, Found(outs, n - 1);
      if outs[n - 1].Ok? && outs[n - 1].value.Some? {
        var now := Accumulate(outs, n).value;
        assert now == prev + [outs[n - 1].value.value];
        assert Found(outs, n) == idx + [n - 1];
        forall j | 0 <= j < |idx| + 1
          ensures outs[Found(outs, n)[j]] == Ok(Some(now[j]))
        {
          if j < |idx| {
            assert Found(outs, n)[j] == idx[j] && now[j] == prev[j];
          }
        }
      }
    }
  }

  /** When no check raises, each check yields at most one opportunity, every
      opportunity found comes from a check, every check's opportunity is
      found, and they are collected in the order of the checks. */
  lemma AccumulateKeeps<T>(outs: seq<Result<Option<T>>>, n: nat)
    requires n <= |outs|
    ensures Accumulate(outs, n).Ok? ==> |Accumulate(outs, n).value| <= n
    ensures Accumulate(outs, n).Ok? ==> forall o :: o in Accumulate(outs, n).value ==>
      exists k :: 0 <= k < n && outs[k] == Ok(Some(o))
    ensures Accumulate(outs, n).Ok? ==> forall k :: 0 <= k < n && outs[k].Ok? && outs[k].value.Some? ==>
      outs[k].value.value in Accumulate(outs, n).value
    ensures Accumulate(outs, n).Ok? ==>
      && |Accumulate(outs, n).value| == |Found(outs, n)|
      && forall j :: 0 <= j < |Found(outs, n)| ==> outs[Found(outs, n)[j]] == Ok(Some(Accumulate(outs, n).value[j]))
  {
    AccumulateInOrder(outs, n);
    if Accumulate(outs, n).Ok? {
      var value, idx := Accumulate(outs, n).value, Found(outs, n);
      forall o | o in value
        ensures exists k :: 0 <= k < n && outs[k] == Ok(Some(o))
      {
        var j :| 0 <= j < |value| && value[j] == o;
        assert outs[idx[j]] == Ok(Some(o));
      }
      forall k | 0 <= k < n && outs[k].Ok? && outs[k].value.Some?
        ensures outs[k].value.value in value
      {
        var j :| 0 <= j < |idx| && idx[j] == k;
        assert outs[idx[j]] == Ok(Some(value[j]));
      }
    }
  }

  /** Running the checks raises exactly the first exception a check raises;
      otherwise each check yields at most one opportunity, every opportunity
      found comes from a check, and every check's opportunity is found. */
  lemma AccumulateCorrect<T>(outs: seq<Result<Option<T>>>, n: nat)
    requires n <= |outs|
    ensures Accumulate(outs, n).Raised? <==> exists k :: 0 <= k < n && outs[k].Raised?
    ensures Accumulate(outs, n).Raised? ==>
      exists k :: 0 <= k < n && outs[k].Raised? && Accumulate(outs, n).exception == outs[k].exception
        && forall t :: 0 <= t < k ==> !outs[t].Raised?
    ensures Accumulate(outs, n).Ok? ==> |Accumulate(outs, n).value| <= n
    ensures Accumulate(outs, n).Ok? ==> forall o :: o in Accumulate(outs, n).value ==>
      exists k :: 0 <= k < n && outs[k] == Ok(Some(o))
    ensures Accumulate(outs, n).Ok? ==> forall k :: 0 <= k < n && outs[k].Ok? && outs[k].value.Some? ==>
      outs[k].value.value in Accumulate(outs, n).value
    ensures Accumulate(outs, n).Ok? ==>
      && |Accumulate(outs, n).value| == |Found(outs, n)|
      && forall j :: 0 <= j < |Found(outs, n)| ==> outs[Found(outs, n)[j]] == Ok(Some(Accumulate(outs, n).value[j]))
  {
    AccumulateRaises(outs, n);
    AccumulateKeeps(outs, n);
  }

  /** Every pair examined, in the order `detect_opportunities` examines them. */
  function AllPairs(table: map<string, string>, allOdds: AllOdds): seq<Pair>
  {
    var games := Group(table, Flatten(allOdds));
    GamePairs(games, |games.keys|)
  }

  /** The outcome recorded at position `t` of a run. */
  function OutcomeAt<T>(outs: seq<Result<Option<T>>>, t: nat): Result<Option<T>>
    requires t < |outs|
  {
    outs[t]
  }

  /** The outcome of checking each pair of `ps`. */
  function Outcomes(table: map<string, string>, minProfit: real, ps: seq<Pair>): (r: seq<Result<Option<ArbitrageOpportunity>>>)
    ensures |r| == |ps|
    ensures forall k {:trigger OutcomeAt(r, k)} :: 0 <= k < |ps| ==> OutcomeAt(r, k) == CheckSpec(table, minProfit, ps[k].0, ps[k].1)
  {
    seq(|ps|, k requires 0 <= k < |ps| => CheckSpec(table, minProfit, ps[k].0, ps[k].1))
  }

  /** `outs` records, position by position, the outcome of checking each
      pair of `all`. */
  ghost predicate RunOf(table: map<string, string>, minProfit: real, all: seq<Pair>,
                        outs: seq<Result<Option<ArbitrageOpportunity>>>)
  {
    && |outs| == |all|
    && forall k {:trigger OutcomeAt(outs, k)} :: 0 <= k < |all| ==> OutcomeAt(outs, k) == CheckSpec(table, minProfit, all[k].0, all[k].1)
  }

  /** A run's outcomes, handed to the detection loops through their
      position-wise description only. */
  lemma RunOutcomes(table: map<string, string>, minProfit: real, allOdds: AllOdds, all: seq<Pair>)
    returns (outs: seq<Result<Option<ArbitrageOpportunity>>>)
    requires all == AllPairs(table, allOdds)
    ensures RunOf(table, minProfit, all, outs)
    ensures Accumulate(outs, |outs|) == DetectSpec(table, minProfit, allOdds)
  {
    outs := Outcomes(table, minProfit, all);
  }

  /** The specification of `detect_opportunities`. */
  function DetectSpec(table: map<string, string>, minProfit: real, allOdds: AllOdds): Result<seq<ArbitrageOpportunity>>
  {
    var ps := AllPairs(table, allOdds);
    Accumulate(Outcomes(table, minProfit, ps), |ps|)
  }

  /** The pairs examined are exactly the pairs of quotes x < y of one bucket. */
  lemma {:induction false} GamePairsSound(games: Games, g: nat)
    requires g <= |games.keys|
    ensures forall p :: p in GamePairs(games, g) ==>
      exists h, x, y :: 0 <= h < g && 0 <= x < y < |Bucket(games, h)| && p == (Bucket(games, h)[x], Bucket(games, h)[y])
  {
    if g > 0 {
      GamePairsSound(games, g - 1);
      var b := Bucket(games, g - 1);
      PairsUpToSound(b, |b|);
    }
  }

  lemma GamePairsComplete(games: Games, h: nat, x: nat, y: nat)
    requires h < |games.keys| && x < y < |Bucket(games, h)|
    ensures (Bucket(games, h)[x], Bucket(games, h)[y]) in GamePairs(games, |games.keys|)
  {
    var b := Bucket(games, h);
    PairInPairsUpTo(b, |b|, x, y);
    InRight(GamePairs(games, h), PairsUpTo(b, |b|), (b[x], b[y]));
    GamePairsPrefix(games, h + 1, |games.keys|);
    InPrefix(GamePairs(games, h + 1), GamePairs(games, |games.keys|), (b[x], b[y]));
  }

  /** Every quote of a bucket is a quote of the input with the bucket's key. */
  lemma BucketMember(table: map<string, string>, qs: seq<GameOdds>, h: nat, x: nat)
    requires h < |Group(table, qs).keys| && x < |Bucket(Group(table, qs), h)|
    ensures Bucket(Group(table, qs), h)[x] in qs
    ensures QuoteKey(table, Bucket(Group(table, qs), h)[x]) == Group(table, qs).keys[h]
  {
    var ks := Keys(table, qs);
    var games := GroupUpTo(qs, ks, |qs|);
    var key := games.keys[h];
    GroupKeys(qs, ks, |qs|);
    assert key in games.buckets;
    GroupBuckets(qs, ks, |qs|);
    var q := games.buckets[key][x];
    assert q in Select(qs, ks, key, |qs|);
    SelectMembers(qs, ks, key, |qs|);
    var i :| 0 <= i < |qs| && qs[i] == q && ks[i] == key;
  }

  /** Both quotes of every pair examined belong to the input and carry the
      same game key. */
  lemma AllPairsSameGame(table: map<string, string>, allOdds: AllOdds)
    ensures forall p :: p in AllPairs(table, allOdds) ==>
      && p.0 in Flatten(allOdds) && p.1 in Flatten(allOdds)
      && QuoteKey(table, p.0) == QuoteKey(table, p.1)
  {
    var qs := Flatten(allOdds);
    var games := Group(table, qs);
    GamePairsSound(games, |games.keys|);
    forall p | p in AllPairs(table, allOdds)
      ensures p.0 in qs && p.1 in qs && QuoteKey(table, p.0) == QuoteKey(table, p.1)
    {
      var h, x, y :| 0 <= h < |games.keys| && 0 <= x < y < |Bucket(games, h)|
        && p == (Bucket(games, h)[x], Bucket(games, h)[y]);
      BucketMember(table, qs, h, x);
      BucketMember(table, qs, h, y);
    }
  }

  /** What an opportunity found for a pair guarantees, on its own terms. */
  lemma OpportunityFacts(table: map<string, string>, minProfit: real, o1: GameOdds, o2: GameOdds, o: ArbitrageOpportunity)
    requires CheckSpec(table, minProfit, o1, o2) == Ok(Some(o))
    ensures o.profitPercentage >= minProfit && o.profitPercentage > ProfitFloor
    ensures o.bet1Amount + o.bet2Amount == TotalBet
  {
    CheckSpecChoosesBest(table, minProfit, o1, o2);
    CheckSpecStakes(table, minProfit, o1, o2);
  }

  /** Every opportunity detected clears the threshold and the floor, stakes
      the total bet, and is the opportunity of a pair examined. */
  lemma DetectSpecSound(table: map<string, string>, minProfit: real, allOdds: AllOdds)
    ensures var r := DetectSpec(table, minProfit, allOdds); var ps := AllPairs(table, allOdds);
      r.Ok? ==> forall o :: o in r.value ==>
        && o.profitPercentage >= minProfit && o.profitPercentage > ProfitFloor
        && o.bet1Amount + o.bet2Amount == TotalBet
        && exists k :: 0 <= k < |ps| && CheckSpec(table, minProfit, ps[k].0, ps[k].1) == Ok(Some(o))
  {
    var ps := AllPairs(table, allOdds);
    var outs := RunOutcomes(table, minProfit, allOdds, ps);
    AccumulateCorrect(outs, |outs|);
    var r := Accumulate(outs, |outs|);
    if r.Ok? {
      forall o | o in r.value
        ensures o.profitPercentage >= minProfit && o.profitPercentage > ProfitFloor
        ensures o.bet1Amount + o.bet2Amount == TotalBet
        ensures exists k :: 0 <= k < |ps| && CheckSpec(table, minProfit, ps[k].0, ps[k].1) == Ok(Some(o))
      {
        var k :| 0 <= k < |outs| && outs[k] == Ok(Some(o));
        assert OutcomeAt(outs, k) == outs[k];
        OpportunityFacts(table, minProfit, ps[k].0, ps[k].1, o);
      }
    }
  }

  /** When detection does not raise, it reports one opportunity for each
      examined pair that yields one and nothing else, in the order the pairs
      are examined: `idx` lists those pairs' positions, increasing. */
  lemma DetectSpecInPairOrder(table: map<string, string>, minProfit: real, allOdds: AllOdds)
    ensures var r := DetectSpec(table, minProfit, allOdds); var ps := AllPairs(table, allOdds);
      var idx := Found(Outcomes(table, minProfit, ps), |ps|);
      r.Ok? ==>
        && |r.value| == |idx|
        && (forall j :: 0 <= j < |idx| ==>
              idx[j] < |ps| && CheckSpec(table, minProfit, ps[idx[j]].0, ps[idx[j]].1) == Ok(Some(r.value[j])))
        && (forall j, j' :: 0 <= j < j' < |idx| ==> idx[j] < idx[j'])
        && (forall k :: 0 <= k < |ps| ==>
              var c := CheckSpec(table, minProfit, ps[k].0, ps[k].1);
              c.Ok? && c.value.Some? ==> k in idx)
  {
    hide CheckSpec;
    var ps := AllPairs(table, allOdds);
    var outs := Outcomes(table, minProfit, ps);
    var idx := Found(outs, |ps|);
    AccumulateInOrder(outs, |ps|);
    forall j | 0 <= j < |idx|
      ensures OutcomeAt(outs, idx[j]) == outs[idx[j]]
    {
    }
    forall k | 0 <= k < |ps|
      ensures OutcomeAt(outs, k) == outs[k]
    {
    }
  }

  /** Every opportunity of a pair examined is detected. */
  lemma DetectSpecComplete(table: map<string, string>, minProfit: real, allOdds: AllOdds)
    ensures var r := DetectSpec(table, minProfit, allOdds); var ps := AllPairs(table, allOdds);
      r.Ok? ==> forall k :: 0 <= k < |ps| ==>
        var c := CheckSpec(table, minProfit, ps[k].0, ps[k].1);
        c.Ok? && c.value.Some? ==> c.value.value in r.value
  {
    var ps := AllPairs(table, allOdds);
    var outs := RunOutcomes(table, minProfit, allOdds, ps);
    AccumulateCorrect(outs, |outs|);
    var r := Accumulate(outs, |outs|);
    if r.Ok? {
      forall k | 0 <= k < |ps|
        ensures var c := CheckSpec(table, minProfit, ps[k].0, ps[k].1);
          c.Ok? && c.value.Some? ==> c.value.value in r.value
      {
        assert OutcomeAt(outs, k) == outs[k];
      }
    }
  }

  /** Detection raises exactly when some pair examined raises, and then
      with the ZeroDivisionError of a zero price. */
  lemma DetectSpecRaises(table: map<string, string>, minProfit: real, allOdds: AllOdds)
    ensures var r := DetectSpec(table, minProfit, allOdds); var ps := AllPairs(table, allOdds);
      && (r.Raised? <==> exists k :: 0 <= k < |ps| && CheckSpec(table, minProfit, ps[k].0, ps[k].1).Raised?)
      && (r.Raised? ==> r.exception == ZeroDivisionError)
  {
    hide CheckSpec, Accumulate;
    var ps := AllPairs(table, allOdds);
    var outs := RunOutcomes(table, minProfit, allOdds, ps);
    AccumulateCorrect(outs, |outs|);
    var r := Accumulate(outs, |outs|);
    if r.Raised? {
      var k :| 0 <= k < |outs| && outs[k].Raised? && r.exception == outs[k].exception;
      assert OutcomeAt(outs, k) == outs[k];
      CheckSpecRaised(table, minProfit, ps[k].0, ps[k].1);
    } else {
      forall k | 0 <= k < |ps|
        ensures !CheckSpec(table, minProfit, ps[k].0, ps[k].1).Raised?
      {
        assert OutcomeAt(outs, k) == outs[k];
      }
    }
  }

  function PairBudget(games: Games, g: nat): nat
    requires g <= |games.keys|
  {
    if g == 0 then 0
    else PairBudget(games, g - 1) + |Bucket(games, g - 1)| * (|Bucket(games, g - 1)| - 1) / 2
  }

  lemma {:induction false} GamePairsLength(games: Games, g: nat)
    requires g <= |games.keys|
    ensures |GamePairs(games, g)| == PairBudget(games, g)
  {
    if g > 0 {
      GamePairsLength(games, g - 1);
      var b := Bucket(games, g - 1);
      PairsUpToLength(b, |b|);
    }
  }

  /** A bucket of n quotes contributes at most n(n-1)/2 opportunities. */
  lemma DetectSpecBound(table: map<string, string>, minProfit: real, allOdds: AllOdds)
    ensures var games := Group(table, Flatten(allOdds)); var r := DetectSpec(table, minProfit, allOdds);
      r.Ok? ==> |r.value| <= PairBudget(games, |games.keys|)
  {
    var games := Group(table, Flatten(allOdds));
    var ps := AllPairs(table, allOdds);
    AccumulateCorrect(Outcomes(table, minProfit, ps), |ps|);
    GamePairsLength(games, |games.keys|);
  }

  /** `ps` sits in `all` from position `offset` on. */
  ghost predicate SitsAt<T>(all: seq<T>, offset: nat, ps: seq<T>)
  {
    && offset + |ps| <= |all|
    && forall k :: 0 <= k < |ps| ==> all[offset + k] == ps[k]
  }

  /** Row `i` of bucket `b`, the pairs (b[i], b[j]) for i < j in order, sits
      in `all` from position `start` on. */
  ghost predicate RowSitsAt<T>(all: seq<(T, T)>, start: nat, b: seq<T>, i: nat)
  {
    && i < |b|
    && start + (|b| - i - 1) <= |all|
    && forall j :: i < j < |b| ==> all[start + (j - i - 1)] == (b[i], b[j])
  }

  /** Row `i` of a bucket: its pairs, and where they sit in the bucket's
      pair list, right after rows 0 .. i-1. */
  lemma RowBlock<T>(b: seq<T>, i: nat)
    requires i < |b|
    ensures |RowPairs(b, i, |b|)| == |b| - i - 1
    ensures |PairsUpTo(b, i + 1)| == |PairsUpTo(b, i)| + |RowPairs(b, i, |b|)| <= |PairsUpTo(b, |b|)|
    ensures forall k :: 0 <= k < |RowPairs(b, i, |b|)| ==>
      PairsUpTo(b, |b|)[|PairsUpTo(b, i)| + k] == RowPairs(b, i, |b|)[k]
    ensures forall k :: 0 <= k < |RowPairs(b, i, |b|)| ==> RowPairs(b, i, |b|)[k] == (b[i], b[i + 1 + k])
  {
    RowPairsAt(b, i, |b|);
    PairsUpToPrefix(b, i + 1, |b|);
    PrefixBlock(PairsUpTo(b, i), RowPairs(b, i, |b|), PairsUpTo(b, |b|), |PairsUpTo(b, i)|);
  }

  /** Row `i` of bucket `b`, whose pairs sit in `all` from `offset` on,
      sits in `all` from `start` on. */
  lemma RowInAll<T>(b: seq<T>, i: nat, all: seq<(T, T)>, offset: nat, start: nat)
    requires i < |b| && SitsAt(all, offset, PairsUpTo(b, |b|))
    requires start == offset + |PairsUpTo(b, i)|
    ensures offset + |PairsUpTo(b, i + 1)| == start + (|b| - i - 1) <= offset + |PairsUpTo(b, |b|)|
    ensures RowSitsAt(all, start, b, i)
  {
    hide PairsUpTo, RowPairs;
    RowBlock(b, i);
    var before, row := PairsUpTo(b, i), RowPairs(b, i, |b|);
    BlockInBlock(all, PairsUpTo(b, |b|), row, offset, |before|);
    forall j | i < j < |b|
      ensures all[start + (j - i - 1)] == (b[i], b[j])
    {
      assert row[j - i - 1] == (b[i], b[i + 1 + (j - i - 1)]);
    }
  }

  /** The pairs of bucket `g` (`b`) sit in the list of all pairs (`all`)
      right after the `start` pairs of the buckets before it. */
  lemma BucketInAll(games: Games, g: nat, b: seq<GameOdds>, all: seq<Pair>, start: nat)
    requires g < |games.keys| && b == Bucket(games, g)
    requires all == GamePairs(games, |games.keys|) && start == |GamePairs(games, g)|
    ensures |GamePairs(games, g + 1)| == start + |PairsUpTo(b, |b|)|
    ensures SitsAt(all, start, PairsUpTo(b, |b|))
  {
    GamePairsPrefix(games, g + 1, |games.keys|);
    PrefixBlock(GamePairs(games, g), PairsUpTo(b, |b|), all, start);
  }

  /** The innermost loop of `detect_opportunities`: quote `i` of a bucket
      against every later quote, appending each opportunity to `found`.
      `all` lists every pair of the run, `outs` their outcomes, and
      `offset` is the position of this row's first pair in `all`. */
  method CheckRow(table: map<string, string>, minProfit: real, gameOdds: seq<GameOdds>, i: nat,
                  ghost all: seq<Pair>, ghost outs: seq<Result<Option<ArbitrageOpportunity>>>, ghost offset: nat,
                  found: seq<ArbitrageOpportunity>)
    returns (r: Result<seq<ArbitrageOpportunity>>)
    requires RunOf(table, minProfit, all, outs)
    requires i < |gameOdds| && RowSitsAt(all, offset, gameOdds, i)
    requires Accumulate(outs, offset) == Ok(found)
    ensures r.Ok? ==> Accumulate(outs, offset + (|gameOdds| - i - 1)) == Ok(r.value)
    ensures r.Raised? ==> r == Accumulate(outs, |outs|)
  {
    var opportunities := found;
    hide CheckSpec;
    for j := i + 1 to |gameOdds|
      invariant Accumulate(outs, offset + (j - i - 1)) == Ok(opportunities)
    {
      ghost var n := offset + (j - i - 1);
      var opportunity := CheckArbitrage(table, minProfit, gameOdds[i], gameOdds[j]);
      assert all[n] == (gameOdds[i], gameOdds[j]);
      assert OutcomeAt(outs, n) == opportunity;
      if opportunity.Raised? {
        AccumulateRaisedPersists(outs, n + 1, |outs|);
        return Raised(opportunity.exception);
      }
      if opportunity.value.Some? {
        opportunities := opportunities + [opportunity.value.value];
      }
    }
    r := Ok(opportunities);
  }

  /** The two inner loops of `detect_opportunities` on one bucket: every
      pair i < j in order, appending each opportunity found to `found`.
      `offset` is the position of the bucket's first pair in `all`. */
  method CheckBucket(table: map<string, string>, minProfit: real, gameOdds: seq<GameOdds>,
                     ghost all: seq<Pair>, ghost outs: seq<Result<Option<ArbitrageOpportunity>>>, ghost offset: nat,
                     found: seq<ArbitrageOpportunity>)
    returns (r: Result<seq<ArbitrageOpportunity>>)
    requires RunOf(table, minProfit, all, outs)
    requires SitsAt(all, offset, PairsUpTo(gameOdds, |gameOdds|))
    requires Accumulate(outs, offset) == Ok(found)
    ensures r.Ok? ==> Accumulate(outs, offset + |PairsUpTo(gameOdds, |gameOdds|)|) == Ok(r.value)
    ensures r.Raised? ==> r == Accumulate(outs, |outs|)
  {
    var opportunities := found;
    ghost var position := offset;
    assert position == offset + |PairsUpTo(gameOdds, 0)|;
    assert offset + |PairsUpTo(gameOdds, |gameOdds|)| <= |all| == |outs|;
    hide Accumulate, PairsUpTo, CheckSpec, RunOf, SitsAt, RowSitsAt;
    for i := 0 to |gameOdds|
      invariant position == offset + |PairsUpTo(gameOdds, i)| <= |all|
      invariant Accumulate(outs, position) == Ok(opportunities)
    {
      RowInAll(gameOdds, i, all, offset, position);
      var rowResult := CheckRow(table, minProfit, gameOdds, i, all, outs, position, opportunities);
      if rowResult.Raised? {
        return rowResult;
      }
      position := position + (|gameOdds| - i - 1);
      opportunities := rowResult.value;
    }
    r := Ok(opportunities);
  }

  /** `detect_opportunities`: group the quotes, then check every pair i < j
      of every bucket, bucket by bucket, appending each opportunity found;
      an exception raised while checking a pair escapes. */
  method DetectOpportunities(table: map<string, string>, minProfit: real, allOdds: AllOdds)
    returns (r: Result<seq<ArbitrageOpportunity>>)
    ensures r == DetectSpec(table, minProfit, allOdds)
  {
    var games := GetAllGames(table, allOdds);
    GroupKeys(Flatten(allOdds), Keys(table, Flatten(allOdds)), |Flatten(allOdds)|);
    ghost var all := GamePairs(games, |games.keys|);
    ghost var outs := RunOutcomes(table, minProfit, allOdds, all);
    r := CheckGames(table, minProfit, games, all, outs);
  }

  /** The loop over the game keys of `detect_opportunities`: each bucket's
      pairs in turn, stopping at the first exception. */
  method CheckGames(table: map<string, string>, minProfit: real, games: Games,
                    ghost all: seq<Pair>, ghost outs: seq<Result<Option<ArbitrageOpportunity>>>)
    returns (r: Result<seq<ArbitrageOpportunity>>)
    requires forall k :: k in games.keys ==> k in games.buckets
    requires all == GamePairs(games, |games.keys|) && RunOf(table, minProfit, all, outs)
    ensures r == Accumulate(outs, |outs|)
  {
    var opportunities: seq<ArbitrageOpportunity> := [];
    ghost var position := 0;
    assert position == |GamePairs(games, 0)| && Accumulate(outs, position) == Ok(opportunities);
    assert |outs| == |all|;
    hide Accumulate, GamePairs, PairsUpTo, CheckSpec, RunOf, SitsAt;
    for g := 0 to |games.keys|
      invariant position == |GamePairs(games, g)| <= |all|
      invariant Accumulate(outs, position) == Ok(opportunities)
    {
      var gameOdds := games.buckets[games.keys[g]];
      assert gameOdds == Bucket(games, g);
      BucketInAll(games, g, gameOdds, all, position);
      var bucketResult := CheckBucket(table, minProfit, gameOdds, all, outs, position, opportunities);
      if bucketResult.Raised? {
        return bucketResult;
      }
      position := position + |PairsUpTo(gameOdds, |gameOdds|)|;
      opportunities := bucketResult.value;
    }
    r := Ok(opportunities);
  }
}
