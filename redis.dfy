/**
 * The part of a Redis server that the positional list layer talks to: keys
 * holding lists of strings, and the list commands LLEN, LINDEX, LSET,
 * LINSERT BEFORE, LREM and RPUSH with the server's own semantics. The pure
 * functions say what each command does to one list; the class Connection is
 * the server's key space, updated in place by one method per command.
 */
module Redis {

  datatype Option<+T> = None | Some(value: T)

  /** The errors the modelled commands and replies can produce. */
  datatype StoreError =
    | NoSuchKey        // LSET on a key that holds no list
    | IndexOutOfRange  // LSET with an offset outside the list
    | NotAString       // a nil reply read where the client asked for a string

  datatype Result<+T> = Ok(value: T) | Err(error: StoreError)

  /** List offsets are 0-based; a negative offset counts from the tail, -1 being the last element. */
  function Normalize(n: nat, off: int): int
  {
    if off < 0 then n + off else off
  }

  /** The reply of LINDEX: the element at the offset, or nil when the offset is out of range. */
  function Index(s: seq<string>, off: int): (r: Option<string>)
    ensures r.Some? <==> -|s| <= off < |s|
    ensures 0 <= off < |s| ==> r == Some(s[off])
    ensures -|s| <= off < 0 ==> r == Some(s[|s| + off])
  {
    var k := Normalize(|s|, off);
    if 0 <= k < |s| then Some(s[k]) else None
  }

  /** What LSET does to a list: overwrite one slot, or fail without touching the list. */
  function Set(s: seq<string>, off: int, v: string): (r: Result<seq<string>>)
    ensures s == [] ==> r == Err(NoSuchKey)
    ensures s != [] && r.Err? ==> r == Err(IndexOutOfRange)
    ensures r.Ok? <==> -|s| <= off < |s|
    ensures r.Ok? ==> |r.value| == |s| && r.value[Normalize(|s|, off)] == v
    ensures r.Ok? ==> forall i | 0 <= i < |s| && i != Normalize(|s|, off) :: r.value[i] == s[i]
  {
    if s == [] then Err(NoSuchKey)
    else
      var k := Normalize(|s|, off);
      if 0 <= k < |s| then Ok(s[k := v]) else Err(IndexOutOfRange)
  }

  /** The offset of the first occurrence of x, scanning from the head, or -1 when x does not occur. */
  function FirstIndex(s: seq<string>, x: string): (r: int)
    ensures -1 <= r < |s|
    ensures r == -1 <==> x !in s
    ensures 0 <= r ==> s[r] == x && forall i | 0 <= i < r :: s[i] != x
  {
    if s == [] then -1
    else if s[0] == x then 0
    else
      var k := FirstIndex(s[1..], x);
      assert s == [s[0]] + s[1..];
      if k == -1 then -1
      else k + 1
  }

  /** What LINSERT BEFORE does to a list: put v just before the FIRST occurrence of the pivot; no change when the pivot is absent. */
  function InsertBefore(s: seq<string>, pivot: string, v: string): (r: seq<string>)
    ensures |r| == if pivot in s then |s| + 1 else |s|
  {
    var k := FirstIndex(s, pivot);
    if k < 0 then s else s[..k] + [v] + s[k..]
  }

  /** What LREM with count 0 does: remove every occurrence of v, keeping the order of the rest. */
  function RemoveAll(s: seq<string>, v: string): (r: seq<string>)
    ensures multiset(r) == multiset(s)[v := 0]
    ensures v !in r
    ensures v !in s ==> r == s
    decreases |s|
  {
    if s == [] then []
    else
      assert s == [s[0]] + s[1..];
      (if s[0] == v then [] else [s[0]]) + RemoveAll(s[1..], v)
  }

  /** What LREM with a positive count n does: remove the first n occurrences of v, scanning from the head. */
  function RemoveFirst(s: seq<string>, n: nat, v: string): (r: seq<string>)
    ensures |r| <= |s|
    ensures multiset(r) == multiset(s)[v := if multiset(s)[v] <= n then 0 else multiset(s)[v] - n]
    decreases |s|
  {
    if s == [] || n == 0 then s
    else
      assert s == [s[0]] + s[1..];
      if s[0] == v then RemoveFirst(s[1..], n - 1, v)
      else [s[0]] + RemoveFirst(s[1..], n, v)
  }

  /** What LREM with a negative count -n does: remove the last n occurrences of v, scanning from the tail. */
  function RemoveLast(s: seq<string>, n: nat, v: string): (r: seq<string>)
    ensures |r| <= |s|
    ensures multiset(r) == multiset(s)[v := if multiset(s)[v] <= n then 0 else multiset(s)[v] - n]
    decreases |s|
  {
    if s == [] || n == 0 then s
    else
      var init, last := s[..|s| - 1], s[|s| - 1];
      assert s == init + [last];
      if last == v then RemoveLast(init, n - 1, v)
      else RemoveLast(init, n, v) + [last]
  }

  /** What LREM count v does to a list, by the sign of count. */
  function Rem(s: seq<string>, count: int, v: string): (r: seq<string>)
    ensures |r| <= |s|
    ensures forall x | x != v :: multiset(r)[x] == multiset(s)[x]
    ensures count == 0 ==> v !in r
  {
    if count == 0 then
      var r := RemoveAll(s, v);
      assert |multiset(r)| <= |multiset(s)|;
      r
    else if count > 0 then RemoveFirst(s, count, v)
    else RemoveLast(s, -count, v)
  }

  lemma {:induction false} RemoveAllAppend(a: seq<string>, b: seq<string>, v: string)
    ensures RemoveAll(a + b, v) == RemoveAll(a, v) + RemoveAll(b, v)
    decreases |a|
  {
    if a == [] {
      assert a + b == b;
    } else {
      assert (a + b)[1..] == a[1..] + b;
      RemoveAllAppend(a[1..], b, v);
    }
  }

  /** Dropping the head of a list lowers the count of v by one exactly when the head is v. */
  lemma CountTail(a: seq<string>, v: string)
    requires a != []
    ensures multiset(a[1..])[v] == multiset(a)[v] - (if a[0] == v then 1 else 0)
  {
    assert a == [a[0]] + a[1..];
  }

  /** Dropping the last element lowers the count of v by one exactly when that element is v. */
  lemma CountInit(b: seq<string>, v: string)
    requires b != []
    ensures multiset(b[..|b| - 1])[v] == multiset(b)[v] - (if b[|b| - 1] == v then 1 else 0)
  {
    assert b == b[..|b| - 1] + [b[|b| - 1]];
  }

  /** Steps of RemoveFirst and RemoveAll through a head equal to v. */
  lemma HeadDropped(a: seq<string>, b: seq<string>, n: nat, v: string)
    requires a != [] && n > 0 && a[0] == v
    ensures RemoveFirst(a + b, n, v) == RemoveFirst(a[1..] + b, n - 1, v)
    ensures RemoveAll(a, v) == RemoveAll(a[1..], v)
  {
    assert (a + b)[1..] == a[1..] + b;
  }

  /** A step of RemoveFirst through a head other than v. */
  lemma HeadKept(a: seq<string>, b: seq<string>, n: nat, v: string)
    requires a != [] && n > 0 && a[0] != v
    ensures RemoveFirst(a + b, n, v) == [a[0]] + RemoveFirst(a[1..] + b, n, v)
  {
    assert (a + b)[1..] == a[1..] + b;
  }

  /** A step of RemoveAll through the head. */
  lemma RemoveAllHead(a: seq<string>, v: string)
    requires a != []
    ensures RemoveAll(a, v) == (if a[0] == v then [] else [a[0]]) + RemoveAll(a[1..], v)
  {
  }

  /** Concatenation is associative. */
  lemma Assoc(x: seq<string>, y: seq<string>, z: seq<string>)
    ensures (x + y) + z == x + (y + z)
  {
  }

  /** A step of RemoveAll through a head other than v, with a suffix attached. */
  lemma RemoveAllHeadKept(a: seq<string>, b: seq<string>, v: string)
    requires a != [] && a[0] != v
    ensures RemoveAll(a, v) + b == [a[0]] + (RemoveAll(a[1..], v) + b)
  {
    RemoveAllHead(a, v);
    Assoc([a[0]], RemoveAll(a[1..], v), b);
  }

  /** Steps of RemoveLast and RemoveAll through a last element equal to v. */
  lemma TailDropped(a: seq<string>, b: seq<string>, n: nat, v: string)
    requires b != [] && n > 0 && b[|b| - 1] == v
    ensures RemoveLast(a + b, n, v) == RemoveLast(a + b[..|b| - 1], n - 1, v)
    ensures RemoveAll(b, v) == RemoveAll(b[..|b| - 1], v)
  {
    assert (a + b)[..|a + b| - 1] == a + b[..|b| - 1];
    assert b == b[..|b| - 1] + [v];
    RemoveAllAppend(b[..|b| - 1], [v], v);
  }

  /** Steps of RemoveLast and RemoveAll through a last element other than v. */
  lemma TailKept(a: seq<string>, b: seq<string>, n: nat, v: string)
    requires b != [] && n > 0 && b[|b| - 1] != v
    ensures RemoveLast(a + b, n, v) == RemoveLast(a + b[..|b| - 1], n, v) + [b[|b| - 1]]
    ensures a + RemoveAll(b, v) == (a + RemoveAll(b[..|b| - 1], v)) + [b[|b| - 1]]
  {
    assert (a + b)[..|a + b| - 1] == a + b[..|b| - 1];
    assert b == b[..|b| - 1] + [b[|b| - 1]];
    RemoveAllAppend(b[..|b| - 1], [b[|b| - 1]], v);
    assert RemoveAll(b, v) == RemoveAll(b[..|b| - 1], v) + [b[|b| - 1]];
  }

  /** LREM with count n removes from the head: when a prefix a holds exactly n copies of v, those are the ones removed and the rest is untouched. */
  lemma {:induction false} RemoveFirstTakesHead(a: seq<string>, b: seq<string>, n: nat, v: string)
    requires multiset(a)[v] == n
    ensures RemoveFirst(a + b, n, v) == RemoveAll(a, v) + b
    decreases |a|
  {
    if a == [] {
      assert a + b == b;
    } else if n == 0 {
      assert v !in a;
    } else {
      CountTail(a, v);
      if a[0] == v {
        HeadDropped(a, b, n, v);
        RemoveFirstTakesHead(a[1..], b, n - 1, v);
      } else {
        HeadKept(a, b, n, v);
        RemoveAllHeadKept(a, b, v);
        RemoveFirstTakesHead(a[1..], b, n, v);
      }
    }
  }

  /** LREM with count -n removes from the tail: when a suffix b holds exactly n copies of v, those are the ones removed and the rest is untouched. */
  lemma {:induction false} RemoveLastTakesTail(a: seq<string>, b: seq<string>, n: nat, v: string)
    requires multiset(b)[v] == n
    ensures RemoveLast(a + b, n, v) == a + RemoveAll(b, v)
    decreases |b|
  {
    if b == [] {
      assert a + b == a;
    } else if n == 0 {
      assert v !in b;
    } else {
      CountInit(b, v);
      if b[|b| - 1] == v {
        TailDropped(a, b, n, v);
        RemoveLastTakesTail(a, b[..|b| - 1], n - 1, v);
      } else {
        TailKept(a, b, n, v);
        RemoveLastTakesTail(a, b[..|b| - 1], n, v);
      }
    }
  }

  /**
   * The server's key space: each key that exists holds a non-empty list
   * (Redis deletes a key whose list becomes empty, and a missing key reads
   * as the empty list).
   */
  class Connection {
    var lists: map<string, seq<string>>

    ghost predicate Valid()
      reads this
    {
      forall key | key in lists :: lists[key] != []
    }

    /** The list stored under key; empty when the key does not exist. */
    function List(key: string): seq<string>
      reads this
    {
      if key in lists then lists[key] else []
    }

    constructor ()
      ensures Valid() && lists == map[]
    {
      lists := map[];
    }

    /** Replace the list under key, deleting the key when the list is empty. */
    method Put(key: string, t: seq<string>)
      requires Valid()
      modifies this
      ensures Valid() && lists - {key} == old(lists) - {key}
      ensures List(key) == t
    {
      if t == [] {
        lists := lists - {key};
      } else {
        lists := lists[key := t];
      }
    }

    /** LLEN key. */
    method LLen(key: string) returns (n: int)
      ensures n == |List(key)|
    {
      n := |List(key)|;
    }

    /** LINDEX key off. */
    method LIndex(key: string, off: int) returns (v: Option<string>)
      ensures v.Some? <==> -|List(key)| <= off < |List(key)|
      ensures v == Index(List(key), off)
    {
      v := Index(List(key), off);
    }

    /** LSET key off v: an error reply, and no change, when the key is missing or the offset is out of range. */
    method LSet(key: string, off: int, v: string) returns (r: Result<()>)
      requires Valid()
      modifies this
      ensures Valid() && lists - {key} == old(lists) - {key}
      ensures match Set(old(List(key)), off, v)
        case Ok(t) => r == Ok(()) && List(key) == t
        case Err(e) => r == Err(e) && List(key) == old(List(key))
    {
      var res := Set(List(key), off, v);
      if res.Ok? {
        Put(key, res.value);
        r := Ok(());
      } else {
        r := Err(res.error);
      }
    }

    /** LINSERT key BEFORE pivot v: replies the new length, 0 for a missing key, -1 when the pivot is absent. */
    method LInsertBefore(key: string, pivot: string, v: string) returns (n: int)
      requires Valid()
      modifies this
      ensures Valid() && lists - {key} == old(lists) - {key}
      ensures List(key) == InsertBefore(old(List(key)), pivot, v)
      ensures n == if old(List(key)) == [] then 0
                   else if pivot in old(List(key)) then |List(key)|
                   else -1
    {
      var s := List(key);
      if s == [] {
        n := 0;
      } else {
        Put(key, InsertBefore(s, pivot, v));
        n := if pivot in s then |List(key)| else -1;
      }
    }

    /** LREM key count v: replies the number of elements removed. */
    method LRem(key: string, count: int, v: string) returns (n: int)
      requires Valid()
      modifies this
      ensures Valid() && lists - {key} == old(lists) - {key}
      ensures List(key) == Rem(old(List(key)), count, v)
      ensures n == |old(List(key))| - |List(key)| && n >= 0
    {
      var s := List(key);
      Put(key, Rem(s, count, v));
      n := |s| - |List(key)|;
    }

    /** RPUSH key v: replies the new length. */
    method RPush(key: string, v: string) returns (n: int)
      requires Valid()
      modifies this
      ensures Valid() && lists - {key} == old(lists) - {key}
      ensures List(key) == old(List(key)) + [v] && n == |List(key)|
    {
      Put(key, List(key) + [v]);
      n := |List(key)|;
    }
  }
}
