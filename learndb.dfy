/**
 * The positional list layer of the fact bot: every topic names a Redis list
 * of facts, addressed by a signed, 1-based, wrap-around index. Reads go
 * through LLEN and LINDEX; insert-at-position and delete-at-position are
 * built from LSET, LINSERT BEFORE and LREM by writing the empty string into
 * the target slot as a placeholder (the sentinel) and then inserting before,
 * or removing, that placeholder.
 *
 * The pure functions Read, AddEffect and DelEffect say what one call does to
 * a topic's list and what it returns; the class LearnDB runs the same Redis
 * commands, in the same order, against a Connection and is proved to agree
 * with them. The lemmas state the net effect as sequence splicing, which holds
 * exactly when the list does not already contain the sentinel.
 */
module LearnDb {
  import opened Redis

  /** The placeholder written into a slot during a positional insert or delete. */
  const Sentinel: string := ""

  predicate NoSentinel(s: seq<string>)
  {
    Sentinel !in s
  }

  /**
   * Turn a user index into a 1-based position: positive indices stay, -1 is
   * the last element, -length the first; 0 and anything further back than
   * -length become 1. There is no upper clamp.
   */
  function WrapIndex(index: int, length: nat): (r: int)
    ensures r >= 1
    ensures index >= 1 ==> r == index
    ensures index <= -1 && length + index >= 0 ==> r == length + 1 + index
    ensures index == 0 || length + index < 0 ==> r == 1
  {
    var v := if index < 0 then length + 1 + index else index;
    if v < 1 then 1 else v
  }

  /** What get returns: the resolved position, the list length, and the fact there if any. */
  datatype Entry = Entry(position: int, total: int, fact: Option<string>)

  /** The specification of get on the list s. */
  function Read(s: seq<string>, index: int): (e: Entry)
    ensures e.position == WrapIndex(index, |s|) && e.total == |s|
    ensures e.fact.Some? <==> e.position <= |s|
    ensures e.fact.Some? ==> e.fact.value == s[e.position - 1]
  {
    var j := WrapIndex(index, |s|);
    Entry(j, |s|, Index(s, j - 1))
  }

  /** add takes the positional branch exactly when an index is given and it is below length + 1. */
  predicate Positional(length: int, index: Option<int>)
  {
    index.Some? && index.value < length + 1
  }

  /**
   * The list after add's transaction at 0-based slot k: LSET k to the
   * sentinel, LINSERT the fact before the first sentinel, LSET k + 1 back to
   * the displaced element.
   */
  function AddPipeline(s: seq<string>, k: int, fact: string): (r: seq<string>)
    requires 0 <= k < |s|
    ensures |r| == |s| + 1
  {
    var marked := s[k := Sentinel];
    assert marked[k] == Sentinel;
    InsertBefore(marked, Sentinel, fact)[k + 1 := s[k]]
  }

  /** The list after del's transaction at 0-based slot k: LSET k to the sentinel, then LREM 0 of the sentinel. */
  function DelPipeline(s: seq<string>, k: int): (r: seq<string>)
    requires 0 <= k < |s|
    ensures NoSentinel(r)
  {
    RemoveAll(s[k := Sentinel], Sentinel)
  }

  /** The specification of add: its reply (added position, new length) and the topic's new list. */
  function AddEffect(s: seq<string>, index: Option<int>, fact: string): (Result<(int, int)>, seq<string>)
  {
    if Positional(|s|, index) then
      var j := WrapIndex(index.value, |s|);
      if j <= |s| then (Ok((j, |s| + 1)), AddPipeline(s, j - 1, fact))
      else (Err(NotAString), s)
    else
      (Ok((|s| + 1, |s| + 1)), s + [fact])
  }

  /**
   * The specification of del: its reply (the deleted fact) and the topic's new
   * list. When the resolved position is past the end, LSET fails, but the
   * queued LREM still runs, as Redis does not roll back a transaction.
   */
  function DelEffect(s: seq<string>, index: int): (Result<string>, seq<string>)
  {
    var j := WrapIndex(index, |s|);
    if j <= |s| then (Ok(s[j - 1]), DelPipeline(s, j - 1))
    else (Err(if s == [] then NoSuchKey else IndexOutOfRange), RemoveAll(s, Sentinel))
  }

  // ----- Net effect of the sentinel protocol -----

  /** With no sentinel in the list, add's transaction inserts the fact at slot k. */
  lemma AddPipelineSplices(s: seq<string>, k: int, fact: string)
    requires NoSentinel(s) && 0 <= k < |s|
    ensures AddPipeline(s, k, fact) == s[..k] + [fact] + s[k..]
  {
    var marked := s[k := Sentinel];
    var f := FirstIndex(marked, Sentinel);
    assert marked[k] == Sentinel;
    assert f == k;
    assert marked[..k] == s[..k];
    assert marked[k..] == [Sentinel] + s[k + 1..];
    assert s[k..] == [s[k]] + s[k + 1..];
  }

  /** With no sentinel in the list, del's transaction removes exactly slot k. */
  lemma DelPipelineSplices(s: seq<string>, k: int)
    requires NoSentinel(s) && 0 <= k < |s|
    ensures DelPipeline(s, k) == s[..k] + s[k + 1..]
  {
    var marked := s[k := Sentinel];
    assert marked == s[..k] + [Sentinel] + s[k + 1..];
    assert s[..k] + s[k + 1..] == s[..k] + ([] + s[k + 1..]);
    assert Sentinel !in s[..k] && Sentinel !in s[k + 1..];
    RemoveAllAppend(s[..k] + [Sentinel], s[k + 1..], Sentinel);
    RemoveAllAppend(s[..k], [Sentinel], Sentinel);
  }

  /** A sentinel already in the list makes add insert at the wrong place. */
  lemma AddPipelineCollision()
    ensures AddPipeline([Sentinel, "b"], 1, "x") == ["x", Sentinel, "b"]
    ensures ["x", Sentinel, "b"] != [Sentinel, "x", "b"]
  {
    var marked := [Sentinel, "b"][1 := Sentinel];
    assert marked == [Sentinel, Sentinel];
    assert FirstIndex(marked, Sentinel) == 0;
  }

  /** A sentinel already in the list makes del remove more than one element. */
  lemma DelPipelineCollision()
    ensures DelPipeline([Sentinel, "b"], 1) == []
  {
    var marked := [Sentinel, "b"][1 := Sentinel];
    assert marked == [Sentinel, Sentinel];
    assert multiset(RemoveAll(marked, Sentinel)) == multiset{};
  }

  // ----- Properties of add -----

  /** With no index, or an index at or past length + 1, add appends. */
  lemma AddAppends(s: seq<string>, index: Option<int>, fact: string)
    requires index.None? || index.value >= |s| + 1
    ensures AddEffect(s, index, fact) == (Ok((|s| + 1, |s| + 1)), s + [fact])
    ensures AddEffect(s, index, fact) == AddEffect(s, None, fact)
  {
  }

  /** On an empty topic an index of 0 or below takes the positional branch, whose LINDEX reads nil: add fails before any write. */
  lemma AddFailsOnEmptyTopic(index: int, fact: string)
    requires index <= 0
    ensures AddEffect([], Some(index), fact) == (Err(NotAString), [])
  {
  }

  /**
   * A positional add on a non-empty list without the sentinel inserts the fact
   * at the resolved position j, shifting the rest one place later, and reports
   * (j, length + 1).
   */
  lemma AddInserts(s: seq<string>, index: int, fact: string)
    requires NoSentinel(s) && s != [] && index < |s| + 1
    ensures var j := WrapIndex(index, |s|);
      1 <= j <= |s| &&
      AddEffect(s, Some(index), fact) == (Ok((j, |s| + 1)), s[..j - 1] + [fact] + s[j - 1..])
  {
    var j := WrapIndex(index, |s|);
    AddPipelineSplices(s, j - 1, fact);
  }

  /** add of a non-sentinel fact never introduces the sentinel. */
  lemma AddKeepsNoSentinel(s: seq<string>, index: Option<int>, fact: string)
    requires NoSentinel(s) && fact != Sentinel
    ensures NoSentinel(AddEffect(s, index, fact).1)
  {
    if Positional(|s|, index) && s != [] {
      AddInserts(s, index.value, fact);
    }
  }

  /** Round trip: after a successful add to a list without the sentinel, reading the reported position yields the fact. */
  lemma AddThenRead(s: seq<string>, index: Option<int>, fact: string)
    requires NoSentinel(s)
    requires AddEffect(s, index, fact).0.Ok?
    ensures var (j, n) := AddEffect(s, index, fact).0.value;
      n == |s| + 1 && Read(AddEffect(s, index, fact).1, j) == Entry(j, n, Some(fact))
  {
    if Positional(|s|, index) {
      AddInserts(s, index.value, fact);
    }
  }

  // ----- Properties of del -----

  /** A del that resolves inside a list without the sentinel returns that element and removes just it. */
  lemma DelRemoves(s: seq<string>, index: int)
    requires NoSentinel(s) && WrapIndex(index, |s|) <= |s|
    ensures var j := WrapIndex(index, |s|);
      DelEffect(s, index) == (Ok(s[j - 1]), s[..j - 1] + s[j..])
  {
    DelPipelineSplices(s, WrapIndex(index, |s|) - 1);
  }

  /** A del that resolves past the end fails; it leaves a list without the sentinel unchanged, and otherwise strips every sentinel. */
  lemma DelFailsPastEnd(s: seq<string>, index: int)
    requires WrapIndex(index, |s|) > |s|
    ensures DelEffect(s, index).0.Err?
    ensures DelEffect(s, index).1 == RemoveAll(s, Sentinel)
    ensures NoSentinel(s) ==> DelEffect(s, index).1 == s
  {
  }

  /** del succeeds exactly when get at the same index finds a fact, and returns that fact. */
  lemma DelAgreesWithRead(s: seq<string>, index: int)
    ensures DelEffect(s, index).0.Ok? <==> Read(s, index).fact.Some?
    ensures DelEffect(s, index).0.Ok? ==> DelEffect(s, index).0.value == Read(s, index).fact.value
  {
  }

  /** Two appends to an empty topic report positions 1 and 2. */
  lemma ColorsAppend()
    ensures AddEffect([], None, "red") == (Ok((1, 1)), ["red"])
    ensures AddEffect(["red"], None, "blue") == (Ok((2, 2)), ["red", "blue"])
  {
    AddAppends([], None, "red");
    assert [] + ["red"] == ["red"];
    AddAppends(["red"], None, "blue");
    assert ["red"] + ["blue"] == ["red", "blue"];
  }

  /** Inserting at index 1 puts the fact at the front. */
  lemma ColorsInsertFront()
    ensures AddEffect(["red", "blue"], Some(1), "green") == (Ok((1, 3)), ["green", "red", "blue"])
  {
    var s := ["red", "blue"];
    assert NoSentinel(s);
    assert WrapIndex(1, |s|) == 1;
    AddInserts(s, 1, "green");
    assert AddEffect(s, Some(1), "green") == (Ok((1, 3)), s[..0] + ["green"] + s[0..]);
    assert s[..0] + ["green"] + s[0..] == ["green", "red", "blue"];
  }

  /** Index -1 reads the last fact; an empty topic reads nothing. */
  lemma ColorsRead()
    ensures Read(["green", "red", "blue"], -1) == Entry(3, 3, Some("blue"))
    ensures Read([], 1) == Entry(1, 0, None)
  {
  }

  /** Deleting index 2 returns the second fact and closes the gap. */
  lemma ColorsDelete()
    ensures DelEffect(["green", "red", "blue"], 2) == (Ok("red"), ["green", "blue"])
  {
    var s := ["green", "red", "blue"];
    assert NoSentinel(s);
    DelRemoves(s, 2);
    assert s[..1] + s[2..] == ["green", "blue"];
  }

  // ----- Replies -----

  /** The handler replies, as data rather than formatted text. */
  datatype Reply =
    | Added(topic: string, position: int, size: int)
    | AddFailed(error: StoreError)
    | Deleted(topic: string, index: int, fact: string)
    | DeleteFailed(error: StoreError)
    | Found(topic: string, position: int, total: int, fact: string)
    | EmptyTopic(topic: string)
    | TooFew(topic: string, total: int)
    | GetFailed(error: StoreError)
    | NoResponse

  /** learn_add's reply: the resolved position and the new length, or the error. */
  function AddReply(topic: string, r: Result<(int, int)>): (reply: Reply)
    ensures reply.Added? <==> r.Ok?
    ensures reply.Added? ==> reply.topic == topic && (reply.position, reply.size) == r.value
    ensures reply.AddFailed? <==> r.Err?
    ensures reply.AddFailed? ==> reply.error == r.error
  {
    match r
    case Ok((position, size)) => Added(topic, position, size)
    case Err(e) => AddFailed(e)
  }

  /** learn_del's reply: it echoes the index as the user typed it, not the resolved position. */
  function DelReply(topic: string, index: int, r: Result<string>): (reply: Reply)
    ensures reply.Deleted? <==> r.Ok?
    ensures reply.Deleted? ==> reply == Deleted(topic, index, r.value)
    ensures reply.DeleteFailed? <==> r.Err?
    ensures reply.DeleteFailed? ==> reply.error == r.error
  {
    match r
    case Ok(fact) => Deleted(topic, index, fact)
    case Err(e) => DeleteFailed(e)
  }

  /** process_query's reply: the fact when there is one, else empty topic or too few entries. */
  function QueryReply(topic: string, r: Result<Entry>): (reply: Reply)
    ensures reply.Found? <==> r.Ok? && r.value.fact.Some?
    ensures reply.Found? ==> reply == Found(topic, r.value.position, r.value.total, r.value.fact.value)
    ensures reply.EmptyTopic? <==> r.Ok? && r.value.fact.None? && r.value.total == 0
    ensures reply.TooFew? <==> r.Ok? && r.value.fact.None? && r.value.total != 0
    ensures reply.EmptyTopic? ==> reply == EmptyTopic(topic)
    ensures reply.TooFew? ==> reply == TooFew(topic, r.value.total)
    ensures reply.GetFailed? <==> r.Err?
    ensures reply.GetFailed? ==> reply == GetFailed(r.error)
  {
    match r
    case Ok(Entry(position, total, fact)) =>
      (match fact
       case Some(s) => Found(topic, position, total, s)
       case None => if total == 0 then EmptyTopic(topic) else TooFew(topic, total))
    case Err(e) => GetFailed(e)
  }

  ghost predicate AllClean(lists: map<string, seq<string>>)
  {
    forall key | key in lists :: NoSentinel(lists[key])
  }

  /** Replacing one key's list by a list without the sentinel keeps the whole key space clean. */
  lemma CleanAfterUpdate(before: map<string, seq<string>>, after: map<string, seq<string>>, topic: string)
    requires after - {topic} == before - {topic}
    requires topic in after ==> NoSentinel(after[topic])
    ensures AllClean(before) ==> AllClean(after)
  {
    if AllClean(before) {
      forall key | key in after ensures NoSentinel(after[key]) {
        if key != topic {
          assert key in after - {topic};
        }
      }
    }
  }

  /** A command line after the command grammar has matched it. */
  datatype Command =
    | AddCommand(topic: string, index: Option<int>, fact: string)
    | DelCommand(topic: string, at: int)
    | Unrecognised

  /** The store handle and the operations on it. */
  class LearnDB {
    const con: Connection

    constructor (con: Connection)
      ensures this.con == con
    {
      this.con := con;
    }

    /** No stored list contains the sentinel. */
    ghost predicate Clean()
      reads con
    {
      AllClean(con.lists)
    }

    /** get: LLEN, then LINDEX at the resolved position; changes nothing. */
    method Get(topic: string, index: int) returns (r: Entry)
      ensures r == Read(con.List(topic), index)
    {
      var len := con.LLen(topic);
      var j := WrapIndex(index, len);
      var fact := con.LIndex(topic, j - 1);
      r := Entry(j, len, fact);
    }

    /** add: RPUSH, or the sentinel transaction at the resolved position. */
    method Add(topic: string, index: Option<int>, fact: string) returns (r: Result<(int, int)>)
      requires con.Valid()
      modifies con
      ensures con.Valid() && con.lists - {topic} == old(con.lists) - {topic}
      ensures (r, con.List(topic)) == AddEffect(old(con.List(topic)), index, fact)
      ensures old(Clean()) && fact != Sentinel ==> Clean()
    {
      ghost var s := con.List(topic);
      var len := con.LLen(topic);
      if index.Some? && index.value < len + 1 {
        var j := WrapIndex(index.value, len);
        // One transaction over the topic: read the displaced element, then
        // queue LSET, LINSERT BEFORE, LSET.
        var displaced := con.LIndex(topic, j - 1);
        if displaced.None? {
          r := Err(NotAString);
        } else {
          var marked := con.LSet(topic, j - 1, Sentinel);
          assert con.List(topic) == s[j - 1 := Sentinel];
          assert con.List(topic)[j - 1] == Sentinel;
          var newSize := con.LInsertBefore(topic, Sentinel, fact);
          var restored := con.LSet(topic, j, displaced.value);
          // Both LSETs address slots inside the list, so the EXEC reply holds no
          // error and yields LINSERT's reply, the new length.
          assert marked.Ok? && restored.Ok?;
          r := Ok((j, newSize));
        }
      } else {
        var _ := con.RPush(topic, fact);
        r := Ok((len + 1, len + 1));
      }
      if old(Clean()) && fact != Sentinel {
        AddKeepsNoSentinel(s, index, fact);
        CleanAfterUpdate(old(con.lists), con.lists, topic);
      }
    }

    /** del: one transaction queuing LINDEX, LSET to the sentinel, and LREM 0 of the sentinel. */
    method Del(topic: string, index: int) returns (r: Result<string>)
      requires con.Valid()
      modifies con
      ensures con.Valid() && con.lists - {topic} == old(con.lists) - {topic}
      ensures (r, con.List(topic)) == DelEffect(old(con.List(topic)), index)
      ensures old(Clean()) ==> Clean()
    {
      ghost var s := con.List(topic);
      var len := con.LLen(topic);
      var j := WrapIndex(index, len);
      var fact := con.LIndex(topic, j - 1);
      var marked := con.LSet(topic, j - 1, Sentinel);
      if j <= len {
        assert fact == Some(s[j - 1]) && marked == Ok(());
        assert con.List(topic) == s[j - 1 := Sentinel];
      } else {
        assert fact == None && marked == Err(if s == [] then NoSuchKey else IndexOutOfRange);
        assert con.List(topic) == s;
      }
      var _ := con.LRem(topic, 0, Sentinel);
      // The EXEC reply carries the LSET error, if any; otherwise the LINDEX reply.
      r := if marked.Err? then Err(marked.error)
           else if fact.None? then Err(NotAString)
           else Ok(fact.value);
      assert NoSentinel(con.List(topic));
      CleanAfterUpdate(old(con.lists), con.lists, topic);
    }

    /** learn_add: run add and turn its outcome into a reply. */
    method LearnAdd(topic: string, index: Option<int>, fact: string) returns (reply: Reply)
      requires con.Valid()
      modifies con
      ensures con.Valid() && con.lists - {topic} == old(con.lists) - {topic}
      ensures reply == AddReply(topic, AddEffect(old(con.List(topic)), index, fact).0)
      ensures con.List(topic) == AddEffect(old(con.List(topic)), index, fact).1
      ensures old(Clean()) && fact != Sentinel ==> Clean()
    {
      var r := Add(topic, index, fact);
      reply := AddReply(topic, r);
    }

    /** learn_del: run del and turn its outcome into a reply echoing the user's index. */
    method LearnDel(topic: string, index: int) returns (reply: Reply)
      requires con.Valid()
      modifies con
      ensures con.Valid() && con.lists - {topic} == old(con.lists) - {topic}
      ensures reply == DelReply(topic, index, DelEffect(old(con.List(topic)), index).0)
      ensures con.List(topic) == DelEffect(old(con.List(topic)), index).1
      ensures old(Clean()) ==> Clean()
    {
      var r := Del(topic, index);
      reply := DelReply(topic, index, r);
    }

    /**
     * process_query after the topic and index have been split off: index 1
     * when none was given; the reply distinguishes a found fact, an empty
     * topic and a topic with too few entries. Changes nothing.
     */
    method ProcessQuery(topic: string, index: Option<int>) returns (reply: Reply)
      ensures var s := con.List(topic);
        var j := WrapIndex(if index.Some? then index.value else 1, |s|);
        (reply.Found? <==> j <= |s|) &&
        (reply.Found? ==> reply == Found(topic, j, |s|, s[j - 1])) &&
        (reply.EmptyTopic? <==> s == []) &&
        (reply.EmptyTopic? ==> reply == EmptyTopic(topic)) &&
        (reply.TooFew? <==> s != [] && |s| < j) &&
        (reply.TooFew? ==> reply == TooFew(topic, |s|))
    {
      var i := if index.Some? then index.value else 1;
      var e := Get(topic, i);
      reply := QueryReply(topic, Ok(e));
    }

    /** process_command after the command grammar: dispatch to learn_add or learn_del; anything else gets no response. */
    method ProcessCommand(cmd: Command) returns (reply: Reply)
      requires con.Valid()
      modifies con
      ensures con.Valid()
      ensures cmd.Unrecognised? ==> reply == NoResponse && con.lists == old(con.lists)
      ensures cmd.AddCommand? ==>
        con.lists - {cmd.topic} == old(con.lists) - {cmd.topic} &&
        reply == AddReply(cmd.topic, AddEffect(old(con.List(cmd.topic)), cmd.index, cmd.fact).0) &&
        con.List(cmd.topic) == AddEffect(old(con.List(cmd.topic)), cmd.index, cmd.fact).1
      ensures cmd.DelCommand? ==>
        con.lists - {cmd.topic} == old(con.lists) - {cmd.topic} &&
        reply == DelReply(cmd.topic, cmd.at, DelEffect(old(con.List(cmd.topic)), cmd.at).0) &&
        con.List(cmd.topic) == DelEffect(old(con.List(cmd.topic)), cmd.at).1
      ensures old(Clean()) && (cmd.AddCommand? ==> cmd.fact != Sentinel) ==> Clean()
    {
      match cmd
      case AddCommand(topic, index, fact) =>
        reply := LearnAdd(topic, index, fact);
      case DelCommand(topic, index) =>
        reply := LearnDel(topic, index);
      case Unrecognised =>
        reply := NoResponse;
    }
  }
}
