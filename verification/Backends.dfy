/** The two concrete stores behind the coordination services.  Each drops an
    expired key only when an operation next meets it; every operation nevertheless
    answers, and changes what is live, as the store that expires keys at once. */
module Backends {
  import opened TtlStore
  import Glob
  import opened Wrappers

  /** The self-contained memory backend.  The clock reading is an argument. */
  class Memory {
    var kv: Cells
    var sets: map<string, set<string>>

    constructor ()
      ensures kv == map[] && sets == map[]
    {
      kv, sets := map[], map[];
    }

    /** What is live at `now`. */
    ghost function Live(now: int): MemState
      reads this
    {
      MemState(Purge(kv, now), sets)
    }

    /** Looks a key up, evicting it if it has expired. */
    method LiveCell(key: string, now: int) returns (r: Option<Cell>)
      modifies this`kv
      ensures Live(now) == old(Live(now))
      ensures forall t :: t >= now ==> Purge(kv, t) == old(Purge(kv, t))
      ensures r == if key in Live(now).kv then Some(Live(now).kv[key]) else None
      ensures r.Some? ==> key in kv && kv[key] == r.value && kv == old(kv)
      ensures r.None? ==> key !in kv
    {
      if key !in kv {
        return None;
      }
      var e := kv[key];
      if e.expireAt.At? && !(now < e.expireAt.time) {
        kv := kv - {key};
        return None;
      }
      return Some(e);
    }

    method Get(key: string, now: int) returns (r: Option<string>)
      modifies this`kv
      ensures (Live(now), Value(r)) == MemStep(old(Live(now)), now, Op.Get(key))
      ensures forall t :: t >= now ==> Purge(kv, t) == old(Purge(kv, t))
    {
      var e := LiveCell(key, now);
      r := if e.Some? then Some(e.value.value) else None;
    }

    method Set(key: string, value: string, ttl: int, now: int)
      modifies this`kv
      ensures (Live(now), Done) == MemStep(old(Live(now)), now, Op.Set(key, value, ttl))
    {
      ghost var before := Live(now);
      kv := kv[key := Cell(value, ExpiryOf(ttl, now))];
      assert Live(now).kv == before.kv[key := Cell(value, ExpiryOf(ttl, now))];
    }

    method SetNX(key: string, value: string, ttl: int, now: int) returns (ok: bool)
      modifies this`kv
      ensures (Live(now), Flag(ok)) == MemStep(old(Live(now)), now, Op.SetNX(key, value, ttl))
      ensures !ok ==> kv == old(kv)
    {
      ghost var before := Live(now);
      var e := LiveCell(key, now);
      if e.Some? {
        return false;
      }
      kv := kv[key := Cell(value, ExpiryOf(ttl, now))];
      assert Live(now).kv == before.kv[key := Cell(value, ExpiryOf(ttl, now))];
      return true;
    }

    method DeleteOne(key: string, now: int) returns (hit: bool)
      modifies this`kv
      ensures Purge(kv, now) == old(Purge(kv, now)) - {key}
      ensures hit <==> key in old(Purge(kv, now))
    {
      ghost var before := Purge(kv, now);
      var e := LiveCell(key, now);
      hit := e.Some?;
      if hit {
        kv := kv - {key};
      }
      assert Purge(kv, now) == before - {key};
    }

    method Delete(keys: seq<string>, now: int) returns (n: int)
      modifies this`kv
      ensures (Live(now), Count(n)) == MemStep(old(Live(now)), now, Op.Delete(keys))
    {
      n := DeleteEach(keys, now);
    }

    method DeleteEach(keys: seq<string>, now: int) returns (n: int)
      modifies this`kv
      ensures Purge(kv, now) == old(Purge(kv, now)) - ToSet(keys)
      ensures n == |ToSet(keys) * old(Purge(kv, now)).Keys|
    {
      ghost var before := Purge(kv, now);
      n := 0;
      ghost var seen, left := {}, before;
      for i := 0 to |keys|
        invariant seen == ToSet(keys[..i]) && left == before - seen
        invariant Purge(kv, now) == left && n == |seen * before.Keys|
      {
        Minus(before, seen, keys[i]);
        CountNext(seen, keys[i], before.Keys);
        ToSetNext(keys, i);
        var hit := DeleteOne(keys[i], now);
        n := if hit then n + 1 else n;
        seen, left := seen + {keys[i]}, left - {keys[i]};
      }
      assert keys[..|keys|] == keys;
    }

    method Expire(key: string, ttl: int, now: int) returns (ok: bool)
      modifies this`kv
      ensures (Live(now), Flag(ok)) == MemStep(old(Live(now)), now, Op.Expire(key, ttl))
    {
      ghost var before := Live(now);
      var e := LiveCell(key, now);
      if e.None? {
        return false;
      }
      kv := kv[key := e.value.(expireAt := ExpiryOf(ttl, now))];
      assert Live(now).kv == before.kv[key := e.value.(expireAt := ExpiryOf(ttl, now))];
      return true;
    }

    method TTL(key: string, now: int) returns (d: int)
      modifies this`kv
      ensures (Live(now), Duration(d)) == MemStep(old(Live(now)), now, Op.TTL(key))
    {
      var e := LiveCell(key, now);
      if e.None? {
        return -2 * SECOND;
      }
      if e.value.expireAt.Never? {
        return -1 * SECOND;
      }
      return e.value.expireAt.time - now;
    }

    method CompareAndSwap(key: string, expected: string, value: string, ttl: int, now: int) returns (ok: bool)
      modifies this`kv
      ensures (Live(now), Flag(ok)) == MemStep(old(Live(now)), now, Op.CompareAndSwap(key, expected, value, ttl))
    {
      ghost var before := Live(now);
      var e := LiveCell(key, now);
      if e.None? {
        if expected != "" {
          return false;
        }
      } else if e.value.value != expected {
        return false;
      }
      kv := kv[key := Cell(value, ExpiryOf(ttl, now))];
      assert Live(now).kv == before.kv[key := Cell(value, ExpiryOf(ttl, now))];
      return true;
    }

    method CompareAndDelete(key: string, expected: string, now: int) returns (ok: bool)
      modifies this`kv
      ensures (Live(now), Flag(ok)) == MemStep(old(Live(now)), now, Op.CompareAndDelete(key, expected))
    {
      ghost var before := Live(now);
      var e := LiveCell(key, now);
      if e.None? || e.value.value != expected {
        return false;
      }
      kv := kv - {key};
      assert Live(now).kv == before.kv - {key};
      return true;
    }

    method CompareAndExpire(key: string, expected: string, ttl: int, now: int) returns (ok: bool)
      modifies this`kv
      ensures (Live(now), Flag(ok)) == MemStep(old(Live(now)), now, Op.CompareAndExpire(key, expected, ttl))
    {
      ghost var before := Live(now);
      var e := LiveCell(key, now);
      if e.None? || e.value.value != expected {
        return false;
      }
      kv := kv[key := e.value.(expireAt := ExpiryOf(ttl, now))];
      assert Live(now).kv == before.kv[key := e.value.(expireAt := ExpiryOf(ttl, now))];
      return true;
    }

    method SAdd(key: string, members: seq<string>, ghost now: int) returns (n: int)
      modifies this`sets
      ensures (Live(now), Count(n)) == MemStep(old(Live(now)), now, Op.SAdd(key, members))
    {
      var s;
      s, n := AddAll(if key in sets then sets[key] else {}, members);
      sets := sets[key := s];
    }

    method SRem(key: string, members: seq<string>, ghost now: int) returns (n: int)
      modifies this`sets
      ensures (Live(now), Count(n)) == MemStep(old(Live(now)), now, Op.SRem(key, members))
    {
      if key !in sets {
        return 0;
      }
      var s;
      s, n := RemoveAll(sets[key], members);
      sets := if |s| == 0 then sets - {key} else sets[key := s];
    }

    method SMembers(key: string, ghost now: int) returns (r: set<string>)
      ensures (Live(now), Names(r)) == MemStep(Live(now), now, Op.SMembers(key))
    {
      r := if key in sets then sets[key] else {};
    }

    method Scan(prefix: string, now: int) returns (r: seq<string>)
      modifies this`kv
      ensures (Live(now), Names(ToSet(r))) == MemStep(old(Live(now)), now, Op.Scan(prefix))
      ensures Distinct(r)
    {
      ghost var before := Live(now).kv;
      r := ScanEach(prefix, now);
      assert ToSet(r) == (set k | k in before && prefix <= k);
    }

    method ScanEach(prefix: string, now: int) returns (r: seq<string>)
      modifies this`kv
      ensures Live(now).kv == old(Live(now)).kv && Distinct(r)
      ensures forall k :: k in r <==> k in old(Live(now)).kv && prefix <= k
    {
      ghost var before := Live(now).kv;
      r := [];
      var todo := kv.Keys;
      while todo != {}
        invariant Live(now).kv == before
        invariant forall k :: k in r <==> k in before && prefix <= k && k !in todo
        invariant Distinct(r)
        decreases todo
      {
        var k :| k in todo;
        todo := todo - {k};
        var e := LiveCell(k, now);
        if e.Some? && prefix <= k {
          r := r + [k];
        }
      }
    }
  }

  /** The in-memory Redis client: strings and sets share one keyspace. */
  class Emulator {
    var data: Keyspace

    constructor ()
      ensures data == map[]
    {
      data := map[];
    }

    ghost function Live(now: int): Keyspace
      reads this
    {
      Evict(data, now)
    }

    method LiveEntry(key: string, now: int) returns (r: Option<Entry>)
      modifies this`data
      ensures Live(now) == old(Live(now))
      ensures forall t :: t >= now ==> Evict(data, t) == old(Evict(data, t))
      ensures r == if key in Live(now) then Some(Live(now)[key]) else None
      ensures r.Some? ==> key in data && data[key] == r.value && data == old(data)
      ensures r.None? ==> key !in data
    {
      if key !in data {
        return None;
      }
      var v := data[key];
      if v.expireAt.At? && !(v.expireAt.time > now) {
        data := data - {key};
        return None;
      }
      return Some(v);
    }

    method Get(key: string, now: int) returns (r: Option<string>)
      modifies this`data
      ensures (Live(now), Value(r)) == EmuStep(old(Live(now)), now, Op.Get(key))
    {
      var v := LiveEntry(key, now);
      r := if v.None? || !v.value.data.Str? then None else Some(v.value.data.str);
    }

    method Set(key: string, value: string, ttl: int, now: int)
      modifies this`data
      ensures (Live(now), Done) == EmuStep(old(Live(now)), now, Op.Set(key, value, ttl))
    {
      ghost var before := Live(now);
      var exp := ExpiryOf(ttl, now);
      if ttl == KEEP_TTL {
        var cur := LiveEntry(key, now);
        exp := if cur.Some? then cur.value.expireAt else Never;
      }
      data := data[key := Entry(Str(value), exp)];
      assert Live(now) == before[key := Entry(Str(value), exp)];
    }

    method SetNX(key: string, value: string, ttl: int, now: int) returns (ok: bool)
      modifies this`data
      ensures (Live(now), Flag(ok)) == EmuStep(old(Live(now)), now, Op.SetNX(key, value, ttl))
    {
      ghost var before := Live(now);
      var v := LiveEntry(key, now);
      if v.Some? {
        return false;
      }
      data := data[key := Entry(Str(value), ExpiryOf(ttl, now))];
      assert Live(now) == before[key := Entry(Str(value), ExpiryOf(ttl, now))];
      return true;
    }

    method DelOne(key: string, now: int) returns (hit: bool)
      modifies this`data
      ensures Live(now) == old(Live(now)) - {key}
      ensures hit <==> key in old(Live(now))
    {
      ghost var before := Live(now);
      var v := LiveEntry(key, now);
      hit := v.Some?;
      if hit {
        data := data - {key};
      }
      assert Live(now) == before - {key};
    }

    method Del(keys: seq<string>, now: int) returns (n: int)
      modifies this`data
      ensures (Live(now), Count(n)) == EmuStep(old(Live(now)), now, Op.Delete(keys))
    {
      n := DelEach(keys, now);
    }

    method DelEach(keys: seq<string>, now: int) returns (n: int)
      modifies this`data
      ensures Live(now) == old(Live(now)) - ToSet(keys)
      ensures n == |ToSet(keys) * old(Live(now)).Keys|
    {
      ghost var before := Live(now);
      n := 0;
      ghost var seen := ToSet([]);
      assert before - seen == before;
      for i := 0 to |keys|
        invariant seen == ToSet(keys[..i])
        invariant Live(now) == before - seen && n == |seen * before.Keys|
      {
        Minus(before, seen, keys[i]);
        CountNext(seen, keys[i], before.Keys);
        ToSetNext(keys, i);
        var hit := DelOne(keys[i], now);
        n := if hit then n + 1 else n;
        seen := seen + {keys[i]};
      }
      assert keys[..|keys|] == keys;
    }

    method Expire(key: string, ttl: int, now: int) returns (ok: bool)
      modifies this`data
      ensures (Live(now), Flag(ok)) == EmuStep(old(Live(now)), now, Op.Expire(key, ttl))
    {
      ghost var before := Live(now);
      var v := LiveEntry(key, now);
      if v.None? {
        return false;
      }
      data := data[key := v.value.(expireAt := ExpiryOf(ttl, now))];
      assert Live(now) == before[key := v.value.(expireAt := ExpiryOf(ttl, now))];
      return true;
    }

    method TTL(key: string, now: int) returns (d: int)
      modifies this`data
      ensures (Live(now), Duration(d)) == EmuStep(old(Live(now)), now, Op.TTL(key))
    {
      var v := LiveEntry(key, now);
      if v.None? {
        return -2 * SECOND;
      }
      if v.value.expireAt.Never? {
        return -1 * SECOND;
      }
      return v.value.expireAt.time - now;
    }

    method CompareAndSet(key: string, expected: string, value: string, ttl: int, now: int) returns (ok: bool)
      modifies this`data
      ensures (Live(now), Flag(ok)) == EmuStep(old(Live(now)), now, Op.CompareAndSwap(key, expected, value, ttl))
    {
      ghost var before := Live(now);
      var v := LiveEntry(key, now);
      if expected == "" {
        if v.Some? {
          return false;
        }
      } else {
        if v.None? || !v.value.data.Str? || v.value.data.str != expected {
          return false;
        }
      }
      data := data[key := Entry(Str(value), ExpiryOf(ttl, now))];
      assert Live(now) == before[key := Entry(Str(value), ExpiryOf(ttl, now))];
      return true;
    }

    method CompareAndDelete(key: string, expected: string, now: int) returns (ok: bool)
      modifies this`data
      ensures (Live(now), Flag(ok)) == EmuStep(old(Live(now)), now, Op.CompareAndDelete(key, expected))
    {
      ghost var before := Live(now);
      var v := LiveEntry(key, now);
      if v.None? || !v.value.data.Str? || v.value.data.str != expected {
        return false;
      }
      data := data - {key};
      assert Live(now) == before - {key};
      return true;
    }

    method CompareAndExtend(key: string, expected: string, ttl: int, now: int) returns (ok: bool)
      modifies this`data
      ensures (Live(now), Flag(ok)) == EmuStep(old(Live(now)), now, Op.CompareAndExpire(key, expected, ttl))
    {
      ghost var before := Live(now);
      var v := LiveEntry(key, now);
      if v.None? || !v.value.data.Str? || v.value.data.str != expected {
        return false;
      }
      data := data[key := v.value.(expireAt := ExpiryOf(ttl, now))];
      assert Live(now) == before[key := v.value.(expireAt := ExpiryOf(ttl, now))];
      return true;
    }

    method SAdd(key: string, members: seq<string>, now: int) returns (n: int)
      modifies this`data
      ensures (Live(now), Count(n)) == EmuStep(old(Live(now)), now, Op.SAdd(key, members))
    {
      var v := LiveEntry(key, now);
      var exp, cur := Never, {};
      if v.Some? && v.value.data.Members? {
        exp, cur := v.value.expireAt, v.value.data.members;
      }
      var s;
      s, n := AddAll(cur, members);
      var e := Entry(Members(s), exp);
      EvictPut(data, key, e, now);
      data := data[key := e];
    }

    method SRem(key: string, members: seq<string>, now: int) returns (n: int)
      modifies this`data
      ensures (Live(now), Count(n)) == EmuStep(old(Live(now)), now, Op.SRem(key, members))
    {
      var v := LiveEntry(key, now);
      if v.None? || !v.value.data.Members? {
        return 0;
      }
      var s;
      s, n := RemoveAll(v.value.data.members, members);
      if |s| == 0 {
        EvictMinus(data, key, now);
        data := data - {key};
      } else {
        EvictPut(data, key, v.value.(data := Members(s)), now);
        data := data[key := v.value.(data := Members(s))];
      }
    }

    method SMembers(key: string, now: int) returns (r: set<string>)
      modifies this`data
      ensures (Live(now), Names(r)) == EmuStep(old(Live(now)), now, Op.SMembers(key))
    {
      var v := LiveEntry(key, now);
      r := if v.None? || !v.value.data.Members? then {} else v.value.data.members;
    }

    method ScanKeys(pattern: string, now: int) returns (r: seq<string>)
      modifies this`data
      ensures Live(now) == old(Live(now)) && ToSet(r) == ScanNames(old(Live(now)), pattern)
      ensures Distinct(r)
    {
      ghost var before := Live(now);
      r := ScanEach(pattern, now);
      assert ToSet(r) == ScanNames(before, pattern);
    }

    method ScanEach(pattern: string, now: int) returns (r: seq<string>)
      modifies this`data
      ensures Live(now) == old(Live(now)) && Distinct(r)
      ensures forall k :: k in r <==> k in old(Live(now)) && Selects(pattern, k)
    {
      ghost var before := Live(now);
      r := [];
      var todo := data.Keys;
      while todo != {}
        invariant Live(now) == before
        invariant forall k :: k in r <==> k in before && Selects(pattern, k) && k !in todo
        invariant Distinct(r)
        decreases todo
      {
        var k :| k in todo;
        todo := todo - {k};
        var v := LiveEntry(k, now);
        var matched := Glob.GlobMatch(pattern, k);
        if v.Some? && (pattern == "" || pattern == "*" || matched) {
          r := r + [k];
        }
      }
    }
  }

  predicate Distinct(s: seq<string>) {
    forall i, j :: 0 <= i < j < |s| ==> s[i] != s[j]
  }

  lemma {:induction false} EvictPut(m: Keyspace, key: string, e: Entry, now: int)
    requires Alive(e.expireAt, now)
    ensures Evict(m[key := e], now) == Evict(m, now)[key := e]
  {
  }

  lemma {:induction false} EvictMinus(m: Keyspace, key: string, now: int)
    ensures Evict(m - {key}, now) == Evict(m, now) - {key}
  {
  }

  lemma {:induction false} Minus<V>(m: map<string, V>, seen: set<string>, k: string)
    ensures (m - seen) - {k} == m - (seen + {k})
    ensures k in m - seen <==> k in m.Keys - seen
  {
  }

  lemma {:induction false} ToSetNext(keys: seq<string>, i: nat)
    requires i < |keys|
    ensures ToSet(keys[..i + 1]) == ToSet(keys[..i]) + {keys[i]}
  {
  }

  /** One more key counts if it is among `among` and was not seen before. */
  lemma {:induction false} CountNext(seen: set<string>, k: string, among: set<string>)
    ensures |(seen + {k}) * among| == |seen * among| + if k in among - seen then 1 else 0
    ensures |(seen + {k}) - among| == |seen - among| + if k in seen + among then 0 else 1
  {
    assert (seen + {k}) * among == if k in among then seen * among + {k} else seen * among;
    assert (seen + {k}) - among == if k in among then seen - among else (seen - among) + {k};
    if k in seen {
      assert seen + {k} == seen;
    }
  }

  /** Adds each member in turn and counts those that were not there. */
  method AddAll(to: set<string>, members: seq<string>) returns (s: set<string>, n: int)
    ensures s == to + ToSet(members) && n == |ToSet(members) - to|
  {
    s, n := to, 0;
    for i := 0 to |members|
      invariant s == to + ToSet(members[..i]) && n == |ToSet(members[..i]) - to|
    {
      ToSetNext(members, i);
      CountNext(ToSet(members[..i]), members[i], to);
      if members[i] !in s {
        s := s + {members[i]};
        n := n + 1;
      }
    }
    assert members[..|members|] == members;
  }

  /** Removes each member in turn and counts those that were there. */
  method RemoveAll(from: set<string>, members: seq<string>) returns (s: set<string>, n: int)
    ensures s == from - ToSet(members) && n == |ToSet(members) * from|
  {
    s, n := from, 0;
    for i := 0 to |members|
      invariant s == from - ToSet(members[..i]) && n == |ToSet(members[..i]) * from|
    {
      ToSetNext(members, i);
      CountNext(ToSet(members[..i]), members[i], from);
      if members[i] in s {
        s := s - {members[i]};
        n := n + 1;
      }
    }
    assert members[..|members|] == members;
  }
}
