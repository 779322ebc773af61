/**
 * The Flask score server (app.py): a top-10 leaderboard kept in the file
 * scores.json. The file is an abstract field of type Option<seq<int>>:
 * None when the file does not exist, Some(list) when it holds a JSON list.
 */
module ScoreServer {
  import opened Wrappers

  /** The number of scores kept by save_score_to_file (`scores[:10]`). */
  const MaxScores: nat := 10

  function Min(a: int, b: int): int { if a <= b then a else b }

  /** Non-increasing order, the order of `sort(reverse=True)`: each score is at least the next. */
  predicate Descending(s: seq<int>) {
    |s| <= 1 || (s[0] >= s[1] && Descending(s[1..]))
  }

  /** In a non-increasing list, an earlier score is at least any later one. */
  lemma {:induction false} DescendingAt(s: seq<int>, i: nat, j: nat)
    requires Descending(s) && i <= j < |s|
    ensures s[i] >= s[j]
  {
    if 0 < i {
      DescendingAt(s[1..], i - 1, j - 1);
    } else if 1 < j {
      DescendingAt(s[1..], 0, j - 1);
    }
  }

  /** Every prefix of a non-increasing list is non-increasing. */
  lemma {:induction false} DescendingPrefix(s: seq<int>, n: nat)
    requires Descending(s) && n <= |s|
    ensures Descending(s[..n])
  {
    if 2 <= n {
      DescendingPrefix(s[1..], n - 1);
      assert s[..n][1..] == s[1..][..n - 1];
    }
  }

  /** A non-increasing list starts with its largest element. */
  lemma HeadIsMax(s: seq<int>, x: int)
    requires Descending(s) && x in s
    ensures s[0] >= x
  {
    var k :| 0 <= k < |s| && s[k] == x;
    DescendingAt(s, 0, k);
  }

  /** Inserts x into a non-increasing list, before the first element it is at least. */
  function Insert(x: int, s: seq<int>): (r: seq<int>)
    requires Descending(s)
    ensures Descending(r)
    ensures multiset(r) == multiset(s) + multiset{x}
    ensures |r| == |s| + 1
    ensures r[0] == x || (s != [] && r[0] == s[0])
  {
    if s == [] then [x]
    else if x >= s[0] then
      assert ([x] + s)[1..] == s;
      [x] + s
    else
      var rest := Insert(x, s[1..]);
      assert s == [s[0]] + s[1..];
      assert ([s[0]] + rest)[1..] == rest;
      [s[0]] + rest
  }

  /** The list that Python's `list.sort(reverse=True)` leaves behind. */
  function SortDescending(s: seq<int>): (r: seq<int>)
    ensures Descending(r)
    ensures multiset(r) == multiset(s)
  {
    if s == [] then []
    else
      assert s == [s[0]] + s[1..];
      Insert(s[0], SortDescending(s[1..]))
  }

  /** The elements of a list are its head and the elements of its tail. */
  lemma SplitHead(s: seq<int>)
    requires s != []
    ensures multiset(s) == multiset{s[0]} + multiset(s[1..])
  {
    assert s == [s[0]] + s[1..];
  }

  /** Equal multisets stay equal when one occurrence of the same element is taken away. */
  lemma CancelOne(x: int, p: multiset<int>, q: multiset<int>)
    requires multiset{x} + p == multiset{x} + q
    ensures p == q
  {
    assert p == (multiset{x} + p) - multiset{x};
    assert q == (multiset{x} + q) - multiset{x};
  }

  /** Two non-increasing lists with the same elements are the same list. */
  lemma {:induction false} DescendingUnique(a: seq<int>, b: seq<int>)
    requires Descending(a) && Descending(b)
    requires multiset(a) == multiset(b)
    ensures a == b
  {
    if a != [] {
      assert |b| == |multiset(b)| == |multiset(a)| == |a|;
      assert a[0] in multiset(b) && b[0] in multiset(a);
      HeadIsMax(a, b[0]);
      HeadIsMax(b, a[0]);
      SplitHead(a);
      SplitHead(b);
      CancelOne(a[0], multiset(a[1..]), multiset(b[1..]));
      DescendingUnique(a[1..], b[1..]);
      assert a == [a[0]] + a[1..] && b == [b[0]] + b[1..];
    }
  }

  /** Any sort into non-increasing order agrees with SortDescending. */
  lemma SortDescendingUnique(s: seq<int>, r: seq<int>)
    requires Descending(r) && multiset(r) == multiset(s)
    ensures r == SortDescending(s)
  {
    DescendingUnique(r, SortDescending(s));
  }

  /**
   * The list save_score_to_file writes, given the list it loaded and the new
   * score: append, sort in non-increasing order, keep the first MaxScores.
   */
  function TopScores(stored: seq<int>, score: int): (r: seq<int>)
    ensures Descending(r)
    ensures |r| == Min(|stored| + 1, MaxScores)
    ensures multiset(r) <= multiset(stored) + multiset{score}
  {
    var all := SortDescending(stored + [score]);
    assert |all| == |multiset(all)| == |stored + [score]|;
    assert all == all[..Min(|all|, MaxScores)] + all[Min(|all|, MaxScores)..];
    DescendingPrefix(all, Min(|all|, MaxScores));
    all[..Min(|all|, MaxScores)]
  }

  /**
   * Top-k selection: a score of old+new that did not make it into the
   * saved list is no larger than any score that did.
   */
  lemma {:induction false} DroppedBelowKept(stored: seq<int>, score: int, dropped: int, kept: int)
    requires dropped in multiset(stored + [score]) - multiset(TopScores(stored, score))
    requires kept in TopScores(stored, score)
    ensures dropped <= kept
  {
    var all := SortDescending(stored + [score]);
    var n := Min(|all|, MaxScores);
    var top := all[..n];
    assert top == TopScores(stored, score);
    assert all == top + all[n..];
    assert multiset(all) - multiset(top) == multiset(all[n..]);
    assert dropped in all[n..];
    var j :| n <= j < |all| && all[j] == dropped;
    var i :| 0 <= i < n && all[i] == kept;
    DescendingAt(all, i, j);
  }

  /** With fewer than MaxScores stored, nothing is dropped: the new score is kept. */
  lemma NewScoreKept(stored: seq<int>, score: int)
    requires |stored| < MaxScores
    ensures score in TopScores(stored, score)
    ensures multiset(TopScores(stored, score)) == multiset(stored) + multiset{score}
  {
    var all := SortDescending(stored + [score]);
    assert all[..|all|] == all;
    assert multiset(stored + [score]) == multiset(stored) + multiset{score};
    assert score in multiset(all);
  }

  /** A saved list never holds a score that was neither stored nor new. */
  lemma SavedScoresCameFromInput(stored: seq<int>, score: int, x: int)
    requires x in TopScores(stored, score)
    ensures x in stored || x == score
  {
    var r := TopScores(stored, score);
    assert x in multiset(r);
    assert x in multiset(stored) + multiset{score};
  }

  /**
   * On a list that is already a leaderboard, saving is a bounded sorted
   * insert: put the new score in place and cut the list at MaxScores.
   */
  lemma SaveIsBoundedInsert(stored: seq<int>, score: int)
    requires Descending(stored)
    ensures TopScores(stored, score) == Insert(score, stored)[..Min(|stored| + 1, MaxScores)]
  {
    var ins := Insert(score, stored);
    assert multiset(stored + [score]) == multiset(stored) + multiset{score};
    SortDescendingUnique(stored + [score], ins);
  }

  /** The JSON reply of the /save_score route: `{"status": ..., "score": ...}`. */
  datatype SaveReply = SaveReply(status: string, score: int)

  /** The score the /save_score route takes from the request body: `data.get('score', 0)`. */
  function RequestScore(data: map<string, int>): (score: int)
    ensures "score" in data ==> score == data["score"]
    ensures "score" !in data ==> score == 0
  {
    if "score" in data then data["score"] else 0
  }

  /** The server's persistent state: the contents of scores.json, if it exists. */
  class Server {
    var file: Option<seq<int>>

    /** A server started on a disk where scores.json is `stored` (None: absent). */
    constructor(stored: Option<seq<int>>)
      ensures file == stored
    {
      file := stored;
    }

    /** load_scores: the stored list, or the empty list when there is no file. */
    function LoadScores(): (r: seq<int>)
      reads this
      ensures file.None? ==> r == []
      ensures file.Some? ==> r == file.value
    {
      if file.Some? then file.value else []
    }

    /** The file holds a leaderboard: sorted and at most MaxScores long, as every save leaves it. */
    ghost predicate IsLeaderboard()
      reads this
    {
      file.Some? ==> Descending(file.value) && |file.value| <= MaxScores
    }

    /** save_score_to_file: load, append, sort, truncate to MaxScores, write back. */
    method SaveScoreToFile(score: int)
      modifies this
      ensures file == Some(TopScores(old(LoadScores()), score))
      ensures LoadScores() == TopScores(old(LoadScores()), score)
      ensures IsLeaderboard()
    {
      var scores := LoadScores();
      scores := scores + [score];
      scores := SortDescending(scores);
      scores := scores[..Min(|scores|, MaxScores)];
      file := Some(scores);
    }

    /** The /save_score route: stores the request's score (0 if absent) and echoes it. */
    method SaveScore(data: map<string, int>) returns (reply: SaveReply)
      modifies this
      ensures reply == SaveReply("success", RequestScore(data))
      ensures LoadScores() == TopScores(old(LoadScores()), RequestScore(data))
      ensures IsLeaderboard()
    {
      var score := RequestScore(data);
      SaveScoreToFile(score);
      reply := SaveReply("success", score);
    }

    /** The /get_scores route: the stored list, or [] when no file exists. */
    method GetScores() returns (scores: seq<int>)
      ensures file.None? ==> scores == []
      ensures file.Some? ==> scores == file.value
      ensures IsLeaderboard() ==> Descending(scores) && |scores| <= MaxScores
    {
      scores := LoadScores();
    }
  }
}
