/** The leaderboard thread: counts edits per wiki and answers snapshot requests in channel order. */
module Leaderboards {

  datatype Cmd = Update(wiki: string) | Snapshot

  function Counted(cmd: Cmd): multiset<string> {
    if cmd.Update? then multiset{cmd.wiki} else multiset{}
  }

  /** The wikis of the updates among `cmds`, once for every update. */
  function Tally(cmds: seq<Cmd>): multiset<string> {
    if cmds == [] then multiset{}
    else Tally(cmds[..|cmds| - 1]) + Counted(cmds[|cmds| - 1])
  }

  function Snapshots(cmds: seq<Cmd>): nat {
    if cmds == [] then 0 else Snapshots(cmds[..|cmds| - 1]) + if cmds[|cmds| - 1].Snapshot? then 1 else 0
  }

  ghost predicate Descending(entries: seq<(string, nat)>) {
    forall i, j :: 0 <= i < j < |entries| ==> entries[i].1 >= entries[j].1
  }

  ghost predicate Lists(entries: seq<(string, nat)>, wiki: string) {
    exists i :: 0 <= i < |entries| && entries[i].0 == wiki
  }

  /** Every wiki of the tally appears once, with exactly its count, and larger counts come first. */
  ghost predicate IsRanking(entries: seq<(string, nat)>, tally: multiset<string>) {
    && (forall i :: 0 <= i < |entries| ==> entries[i].0 in tally && entries[i].1 == tally[entries[i].0])
    && (forall i, j :: 0 <= i < j < |entries| ==> entries[i].0 != entries[j].0)
    && (forall wiki :: wiki in tally ==> Lists(entries, wiki))
    && Descending(entries)
  }

  /** A stable insertion into a descending list. */
  function Insert(entries: seq<(string, nat)>, e: (string, nat)): (r: seq<(string, nat)>)
    ensures |r| == |entries| + 1 && multiset(r) == multiset(entries) + multiset{e}
  {
    if entries == [] || entries[|entries| - 1].1 >= e.1 then entries + [e]
    else
      assert entries == entries[..|entries| - 1] + [entries[|entries| - 1]];
      Insert(entries[..|entries| - 1], e) + [entries[|entries| - 1]]
  }

  lemma {:induction false} InsertDescends(entries: seq<(string, nat)>, e: (string, nat))
    requires Descending(entries)
    ensures Descending(Insert(entries, e))
  {
    if entries != [] && entries[|entries| - 1].1 < e.1 {
      var init, last := entries[..|entries| - 1], entries[|entries| - 1];
      InsertDescends(init, e);
      var r := Insert(init, e);
      forall i | 0 <= i < |r| ensures r[i].1 >= last.1 {
        assert r[i] in multiset(r);
        assert r[i] == e || r[i] in init;
      }
    }
  }

  function Sorted(entries: seq<(string, nat)>): (r: seq<(string, nat)>)
    ensures |r| == |entries| && multiset(r) == multiset(entries)
  {
    if entries == [] then []
    else
      assert entries == entries[..|entries| - 1] + [entries[|entries| - 1]];
      Insert(Sorted(entries[..|entries| - 1]), entries[|entries| - 1])
  }

  lemma {:induction false} SortedDescends(entries: seq<(string, nat)>)
    ensures Descending(Sorted(entries))
  {
    if entries != [] {
      SortedDescends(entries[..|entries| - 1]);
      InsertDescends(Sorted(entries[..|entries| - 1]), entries[|entries| - 1]);
    }
  }

  /** A listing of the tally in any order: a ranking except for the order. */
  ghost predicate IsListing(entries: seq<(string, nat)>, tally: multiset<string>) {
    && (forall e: (string, nat) :: multiset(entries)[e] == if e.0 in tally && e.1 == tally[e.0] then 1 else 0)
  }

  lemma TwiceIsTwo<T>(s: seq<T>, i: nat, j: nat)
    requires i < j < |s| && s[i] == s[j]
    ensures multiset(s)[s[i]] >= 2
  {
    assert s == s[..j] + [s[j]] + s[j + 1..];
    assert s[..j][i] == s[i] && s[i] in s[..j];
  }

  lemma SortingRanks(entries: seq<(string, nat)>, sorted: seq<(string, nat)>, tally: multiset<string>)
    requires IsListing(entries, tally) && multiset(sorted) == multiset(entries) && Descending(sorted)
    ensures IsRanking(sorted, tally)
  {
    forall i | 0 <= i < |sorted| ensures sorted[i].0 in tally && sorted[i].1 == tally[sorted[i].0] {
      assert sorted[i] in multiset(sorted);
    }
    forall i, j | 0 <= i < j < |sorted| ensures sorted[i].0 != sorted[j].0 {
      if sorted[i].0 == sorted[j].0 {
        TwiceIsTwo(sorted, i, j);
      }
    }
    forall wiki | wiki in tally ensures Lists(sorted, wiki) {
      var e := (wiki, tally[wiki]);
      assert e in multiset(sorted);
      var i :| 0 <= i < |sorted| && sorted[i] == e;
    }
  }

  lemma {:induction false} Listing(tally: multiset<string>, wikis: set<string>) returns (entries: seq<(string, nat)>)
    ensures forall e: (string, nat) :: multiset(entries)[e] == if e.0 in wikis && e.1 == tally[e.0] then 1 else 0
    decreases |wikis|
  {
    if wikis == {} {
      entries := [];
    } else {
      var wiki :| wiki in wikis;
      entries := Listing(tally, wikis - {wiki});
      entries := entries + [(wiki, tally[wiki])];
    }
  }

  /** Every tally can be ranked. */
  lemma RankingExists(tally: multiset<string>) returns (entries: seq<(string, nat)>)
    ensures IsRanking(entries, tally)
  {
    var left := set wiki | wiki in tally;
    var list := Listing(tally, left);
    assert IsListing(list, tally);
    SortedDescends(list);
    SortingRanks(list, Sorted(list), tally);
    entries := Sorted(list);
  }

  /** The snapshot requested at position `i` ranks exactly the updates sent before it. */
  ghost predicate Answered(replies: seq<seq<(string, nat)>>, inbox: seq<Cmd>, before: multiset<string>, i: nat)
    requires i < |inbox|
  {
    inbox[i].Snapshot? ==>
      var k := Snapshots(inbox[..i]);
      k < |replies| && IsRanking(replies[k], before + Tally(inbox[..i]))
  }

  lemma StepAt(inbox: seq<Cmd>, n: nat)
    requires n < |inbox|
    ensures Tally(inbox[..n + 1]) == Tally(inbox[..n]) + Tally([inbox[n]])
    ensures Snapshots(inbox[..n + 1]) == Snapshots(inbox[..n]) + if inbox[n].Snapshot? then 1 else 0
  {
    assert inbox[..n + 1][..n] == inbox[..n] && [inbox[n]][..0] == [];
  }

  /** What handling one command sends back: a ranking of what was seen, for a snapshot request. */
  ghost predicate Replies(cmd: Cmd, seen: multiset<string>, reply: seq<seq<(string, nat)>>) {
    if cmd.Update? then reply == [] else |reply| == 1 && IsRanking(reply[0], seen)
  }

  lemma AnsweredNext(
    replies: seq<seq<(string, nat)>>, reply: seq<seq<(string, nat)>>,
    inbox: seq<Cmd>, before: multiset<string>, n: nat)
    requires n < |inbox| && |replies| == Snapshots(inbox[..n])
    requires Replies(inbox[n], before + Tally(inbox[..n]), reply)
    requires forall i: nat :: i < n ==> Answered(replies, inbox, before, i)
    ensures forall i: nat :: i < n + 1 ==> Answered(replies + reply, inbox, before, i)
  {
    forall i: nat | i < n + 1 ensures Answered(replies + reply, inbox, before, i) {
      assert i < n ==> Answered(replies, inbox, before, i);
    }
  }

  class Leaderboard {
    var counts: map<string, nat>
    ghost var seen: multiset<string>

    /** The map holds exactly the wikis seen, each with the number of its updates. */
    ghost predicate Valid()
      reads this
    {
      && (forall wiki :: wiki in counts <==> wiki in seen)
      && (forall wiki :: wiki in counts ==> counts[wiki] == seen[wiki])
    }

    constructor ()
      ensures Valid() && seen == multiset{}
    {
      counts, seen := map[], multiset{};
    }

    method Count(wiki: string)
      requires Valid()
      modifies this
      ensures Valid() && seen == old(seen) + multiset{wiki}
    {
      if wiki in counts {
        counts := counts[wiki := counts[wiki] + 1];
      } else {
        counts := counts[wiki := 1];
      }
      seen := seen + multiset{wiki};
    }

    /** Collects the map in whatever order it iterates, then sorts by descending count. */
    method Rank() returns (entries: seq<(string, nat)>)
      requires Valid()
      ensures IsRanking(entries, seen)
    {
      var list: seq<(string, nat)> := [];
      var left := counts.Keys;
      while left != {}
        invariant left <= counts.Keys
        invariant forall e: (string, nat) ::
                    multiset(list)[e] == if e.0 in counts.Keys - left && e.1 == seen[e.0] then 1 else 0
        decreases |left|
      {
        var wiki :| wiki in left;
        list := list + [(wiki, counts[wiki])];
        left := left - {wiki};
      }
      entries := [];
      for i := 0 to |list|
        invariant Descending(entries) && multiset(entries) == multiset(list[..i])
      {
        InsertDescends(entries, list[i]);
        assert list[..i + 1] == list[..i] + [list[i]];
        entries := Insert(entries, list[i]);
      }
      assert list[..|list|] == list;
      SortingRanks(list, entries, seen);
    }

    method Handle(cmd: Cmd) returns (reply: seq<seq<(string, nat)>>)
      requires Valid()
      modifies this
      ensures Valid() && seen == old(seen) + Tally([cmd])
      ensures Replies(cmd, old(seen), reply)
    {
      assert [cmd][..0] == [];
      match cmd {
        case Update(wiki) =>
          Count(wiki);
          reply := [];
        case Snapshot =>
          var entries := Rank();
          reply := [entries];
      }
    }

    /** The thread's loop, over everything that arrives until the channel is closed. */
    method Run(inbox: seq<Cmd>) returns (replies: seq<seq<(string, nat)>>)
      requires Valid()
      modifies this
      ensures Valid() && seen == old(seen) + Tally(inbox)
      ensures |replies| == Snapshots(inbox)
      ensures forall i: nat :: i < |inbox| ==> Answered(replies, inbox, old(seen), i)
    {
      replies := [];
      ghost var before := seen;
      for n := 0 to |inbox|
        invariant Valid() && seen == before + Tally(inbox[..n])
        invariant |replies| == Snapshots(inbox[..n])
        invariant forall i: nat :: i < n ==> Answered(replies, inbox, before, i)
      {
        StepAt(inbox, n);
        var reply := Handle(inbox[n]);
        AnsweredNext(replies, reply, inbox, before, n);
        replies := replies + reply;
      }
      assert inbox[..|inbox|] == inbox;
    }
  }
}
