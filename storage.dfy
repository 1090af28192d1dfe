/** The bot's persistent state (`storage.py`): the ids of handled comments,
    the per-day call counter and each user's last call time, with the two
    lists capped. The state lives in memory here; loading and saving the
    JSON file is not modelled. */
module Storage {
  import opened Common
  import opened Strings

  /** Above this many entries a list is cut ... */
  const Cap: nat := 5000
  /** ... to this many of its latest entries. */
  const Keep: nat := 3000

  /** `mark_processed` on the list: the id is appended when absent, and a
      list grown beyond the cap keeps its latest entries. */
  function Marked(processed: seq<string>, id: string): (r: seq<string>)
    ensures id in r
    ensures id in processed ==> r == processed
    ensures id !in processed && |processed| + 1 > Cap ==> r == LastN(processed + [id], Keep)
    ensures id !in processed && |processed| + 1 <= Cap ==> r == processed + [id]
  {
    if id in processed then processed
    else
      var grown := processed + [id];
      if |grown| > Cap then
        assert grown[|grown| - 1] == id;
        assert LastN(grown, Keep)[Keep - 1] == id;
        LastN(grown, Keep)
      else grown
  }

  /** Marking never brings in a duplicate. */
  lemma MarkedNoDuplicates(processed: seq<string>, id: string)
    requires NoDuplicates(processed)
    ensures NoDuplicates(Marked(processed, id))
  {
    if id !in processed {
      var grown := processed + [id];
      assert NoDuplicates(grown);
      if |grown| > Cap {
        NoDuplicatesSuffix(grown, |grown| - Keep);
      }
    }
  }

  /** A list within the cap stays within it. */
  lemma MarkedWithinCap(processed: seq<string>, id: string)
    requires |processed| <= Cap
    ensures |Marked(processed, id)| <= Cap
  {
  }

  /** Marking twice is marking once. */
  lemma MarkedIdempotent(processed: seq<string>, id: string)
    ensures Marked(Marked(processed, id), id) == Marked(processed, id)
  {
  }

  /** What is forgotten by a cut is the oldest: every id kept is one that was
      there, or the new one. */
  lemma MarkedForgetsOnlyOld(processed: seq<string>, id: string, other: string)
    requires other in Marked(processed, id)
    ensures other in processed || other == id
  {
    if id !in processed && |processed| + 1 > Cap {
      var grown := processed + [id];
      var k :| 0 <= k < |LastN(grown, Keep)| && LastN(grown, Keep)[k] == other;
      assert other == grown[|grown| - Keep + k];
    }
  }

  /** `increment_usage` on the counters: the day's count rises by `amount`,
      starting from 0; other days keep theirs. */
  function Incremented(usage: map<string, int>, day: string, amount: int): (r: map<string, int>)
    ensures day in r && r[day] == (if day in usage then usage[day] else 0) + amount
    ensures forall d :: d != day ==> (d in r <==> d in usage) && (d in usage ==> r[d] == usage[d])
  {
    usage[day := (if day in usage then usage[day] else 0) + amount]
  }

  /** The last-call table keyed by lower-cased user name, in insertion
      order. */
  datatype CallTable = CallTable(keys: seq<string>, times: map<string, real>)

  ghost predicate TableValid(t: CallTable) {
    NoDuplicates(t.keys) && (forall k :: k in t.times <==> k in t.keys)
  }

  /** `u[key] = ts`: a new key goes last, a key already there keeps its
      place. */
  function Upsert(t: CallTable, key: string, ts: real): (r: CallTable)
    requires TableValid(t)
    ensures TableValid(r)
    ensures r.times == t.times[key := ts]
    ensures r.keys == if key in t.times then t.keys else t.keys + [key]
  {
    if key in t.times then CallTable(t.keys, t.times[key := ts])
    else CallTable(t.keys + [key], t.times[key := ts])
  }

  /** The cut of a table grown beyond the cap to its latest entries. */
  function Trim(t: CallTable): (r: CallTable)
    requires TableValid(t)
    ensures TableValid(r)
    ensures |t.keys| <= Cap ==> r == t
    ensures |t.keys| > Cap ==> r.keys == LastN(t.keys, Keep)
    ensures forall k :: k in r.times ==> k in t.times && r.times[k] == t.times[k]
  {
    if |t.keys| > Cap then
      var kept := LastN(t.keys, Keep);
      NoDuplicatesSuffix(t.keys, |t.keys| - |kept|);
      CallTable(kept, map k | k in kept :: t.times[k])
    else t
  }

  /** `set_user_last_call`: the upsert under the lower-cased name, then the
      cut. */
  function SetCall(t: CallTable, user: string, ts: real): (r: CallTable)
    requires TableValid(t)
    ensures TableValid(r)
  {
    Trim(Upsert(t, Lower(user), ts))
  }

  /** `get_user_last_call`: the stored time of the lower-cased name, or 0. */
  function GetCall(t: CallTable, user: string): real {
    var key := Lower(user);
    if key in t.times then t.times[key] else 0.0
  }

  /** Within the cap, a name set in one casing reads back in any other, and
      the table stays within the cap. */
  lemma SetThenGet(t: CallTable, user: string, ts: real, other: string)
    requires TableValid(t) && |t.keys| <= Cap
    requires Lower(other) == Lower(user)
    ensures GetCall(SetCall(t, user, ts), other) == ts
    ensures |SetCall(t, user, ts).keys| <= Cap
  {
    var key := Lower(user);
    if key !in t.times && |t.keys| + 1 > Cap {
      var keys := t.keys + [key];
      var kept := LastN(keys, Keep);
      assert kept[|kept| - 1] == key;
    }
  }

  /** Every other user still in the table keeps their time; short of a cut,
      nobody leaves it. */
  lemma SetKeepsOthers(t: CallTable, user: string, ts: real, other: string)
    requires TableValid(t) && |t.keys| <= Cap
    requires Lower(other) != Lower(user)
    ensures Lower(other) in SetCall(t, user, ts).times ==> GetCall(SetCall(t, user, ts), other) == GetCall(t, other)
    ensures Lower(user) in t.times || |t.keys| < Cap ==>
      GetCall(SetCall(t, user, ts), other) == GetCall(t, other)
  {
    var u := Upsert(t, Lower(user), ts);
    assert Lower(other) in u.times <==> Lower(other) in t.times;
    if Lower(other) in u.times {
      assert u.times[Lower(other)] == t.times[Lower(other)];
    }
    if Lower(user) in t.times || |t.keys| < Cap {
      assert Trim(u) == u;
    }
  }

  /** A user never set reads 0. */
  lemma UnknownUserReadsZero(t: CallTable, user: string)
    requires Lower(user) !in t.times
    ensures GetCall(t, user) == 0.0
  {
  }

  /** The state store. */
  class Store {
    var processed: seq<string>
    var usage: map<string, int>
    var calls: CallTable

    ghost predicate Valid()
      reads this
    {
      NoDuplicates(processed) && |processed| <= Cap && TableValid(calls) && |calls.keys| <= Cap
    }

    /** A missing or unreadable state file: everything empty. */
    constructor ()
      ensures Valid()
      ensures processed == [] && usage == map[] && calls == CallTable([], map[])
    {
      processed := [];
      usage := map[];
      calls := CallTable([], map[]);
    }

    /** `is_processed`. */
    function IsProcessed(id: string): (b: bool)
      reads this
      ensures b <==> exists k :: 0 <= k < |processed| && processed[k] == id
    {
      id in processed
    }

    /** `mark_processed`. */
    method MarkProcessed(id: string)
      requires Valid()
      modifies this
      ensures Valid()
      ensures processed == Marked(old(processed), id)
      ensures IsProcessed(id)
      ensures usage == old(usage) && calls == old(calls)
    {
      MarkedNoDuplicates(processed, id);
      if id !in processed {
        processed := processed + [id];
        if |processed| > Cap {
          processed := processed[|processed| - Keep..];
        }
      }
    }

    /** `get_usage`: the count of `dayKey`, or of `today` when no day is
        given. */
    function GetUsage(dayKey: string, today: string): (n: int)
      reads this
      ensures dayKey != "" ==> n == (if dayKey in usage then usage[dayKey] else 0)
      ensures dayKey == "" ==> n == (if today in usage then usage[today] else 0)
    {
      var day := if dayKey == "" then today else dayKey;
      if day in usage then usage[day] else 0
    }

    /** `increment_usage`: returns the new count. */
    method IncrementUsage(dayKey: string, today: string, amount: int) returns (count: int)
      requires Valid()
      modifies this
      ensures Valid()
      ensures usage == Incremented(old(usage), if dayKey == "" then today else dayKey, amount)
      ensures count == GetUsage(dayKey, today) == old(GetUsage(dayKey, today)) + amount
      ensures processed == old(processed) && calls == old(calls)
    {
      var day := if dayKey == "" then today else dayKey;
      var cur := if day in usage then usage[day] else 0;
      usage := usage[day := cur + amount];
      count := usage[day];
    }

    /** `get_user_last_call`. */
    function GetUserLastCall(user: string): (ts: real)
      reads this
      ensures ts == GetCall(calls, Lower(user))
      ensures Lower(user) !in calls.times ==> ts == 0.0
    {
      LowerOfLowerCase(Lower(user));
      GetCall(calls, user)
    }

    /** `set_user_last_call` with the time given. */
    method SetUserLastCall(user: string, ts: real)
      requires Valid()
      modifies this
      ensures Valid()
      ensures calls == SetCall(old(calls), user, ts)
      ensures GetUserLastCall(user) == ts
      ensures processed == old(processed) && usage == old(usage)
    {
      SetThenGet(calls, user, ts, user);
      calls := SetCall(calls, user, ts);
    }
  }
}
