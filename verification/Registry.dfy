/** The registry of websocket clients by group code. Its methods hold a mutex, so runs are sequences of operations. */
module Registry {
  import opened Sequences

  // ----- the operations on values

  type Clients<C> = map<string, seq<C>>

  function Added<C>(m: Clients<C>, key: string, client: C): Clients<C> {
    m[key := Lookup(m, key) + [client]]
  }

  function Removed<C>(m: Clients<C>, key: string): Clients<C> {
    m - {key}
  }

  function WithoutFirst<C(==)>(s: seq<C>, client: C): seq<C> {
    if s == [] then []
    else if s[0] == client then s[1..]
    else [s[0]] + WithoutFirst(s[1..], client)
  }

  function ClientRemoved<C(==)>(m: Clients<C>, key: string, client: C): Clients<C> {
    if key !in m then m
    else if WithoutFirst(m[key], client) == [] then m - {key}
    else m[key := WithoutFirst(m[key], client)]
  }

  // ----- the registry

  class GroupCodeDataClient {
    const sub: string

    constructor (user: string)
      ensures sub == user
    {
      sub := user;
    }
  }

  class GroupCodeDataClientManagerMap {
    var clients: map<string, seq<GroupCodeDataClient>>

    constructor ()
      ensures clients == map[]
    {
      clients := map[];
    }

    method Add(key: string, client: GroupCodeDataClient)
      modifies this
      ensures key in clients && clients[key] == Lookup(old(clients), key) + [client]
      ensures forall other :: other != key ==>
                (other in clients <==> other in old(clients)) && Lookup(clients, other) == Lookup(old(clients), other)
      ensures clients == Added(old(clients), key, client)
    {
      clients := clients[key := Lookup(clients, key) + [client]];
    }

    method Remove(key: string)
      modifies this
      ensures key !in clients
      ensures forall other :: other != key ==>
                (other in clients <==> other in old(clients)) && Lookup(clients, other) == Lookup(old(clients), other)
      ensures clients == Removed(old(clients), key)
    {
      clients := clients - {key};
    }

    method Get(key: string) returns (found: seq<GroupCodeDataClient>, ok: bool)
      ensures ok <==> key in clients
      ensures found == Lookup(clients, key)
    {
      ok := key in clients;
      found := Lookup(clients, key);
    }

    method RemoveClient(key: string, clientToRemove: GroupCodeDataClient)
      modifies this
      ensures Lookup(clients, key) == WithoutFirst(Lookup(old(clients), key), clientToRemove)
      ensures forall other :: other != key ==>
                (other in clients <==> other in old(clients)) && Lookup(clients, other) == Lookup(old(clients), other)
      ensures clients == ClientRemoved(old(clients), key, clientToRemove)
    {
      ClientRemovedAt(clients, key, clientToRemove);
      if key !in clients {
        return;
      }
      var here := clients[key];
      assert Searched(here, 0, clientToRemove);
      hide Lookup, WithoutFirst, Searched;
      for i := 0 to |here|
        invariant clients == old(clients)
        invariant Searched(here, i, clientToRemove)
      {
        SearchStep(here, i, clientToRemove);
        if here[i] == clientToRemove {
          clients := clients[key := here[..i] + here[i + 1..]];
          break;
        }
      }
      SearchedAll(here, clientToRemove);
      assert clients == old(clients)[key := WithoutFirst(here, clientToRemove)];
      RemovalOf(old(clients), key, clientToRemove);
      hide ClientRemoved;
      if |clients[key]| == 0 {
        clients := clients - {key};
      }
    }
  }

  lemma RemovalOf<C>(m: Clients<C>, key: string, client: C)
    requires key in m
    ensures var rest := WithoutFirst(m[key], client);
            ClientRemoved(m, key, client) == if rest == [] then m[key := rest] - {key} else m[key := rest]
  {
  }

  lemma ClientRemovedAt<C>(m: Clients<C>, key: string, client: C)
    ensures var after := ClientRemoved(m, key, client);
            && Lookup(after, key) == WithoutFirst(Lookup(m, key), client)
            && forall other :: other != key ==>
                 (other in after <==> other in m) && Lookup(after, other) == Lookup(m, other)
  {
  }

  /** The first `i` entries are not the client. */
  ghost predicate Searched<C>(s: seq<C>, i: nat, client: C)
    requires i <= |s|
  {
    WithoutFirst(s, client) == s[..i] + WithoutFirst(s[i..], client)
  }

  lemma SearchStep<C>(s: seq<C>, i: nat, client: C)
    requires i < |s| && Searched(s, i, client)
    ensures if s[i] == client then WithoutFirst(s, client) == s[..i] + s[i + 1..] else Searched(s, i + 1, client)
  {
    WithoutFirstStep(s, i, client);
    hide WithoutFirst;
    Recombine(s, i, client, WithoutFirst(s[i + 1..], client));
  }

  lemma WithoutFirstStep<C>(s: seq<C>, i: nat, client: C)
    requires i < |s|
    ensures WithoutFirst(s[i..], client)
         == if s[i] == client then s[i + 1..] else [s[i]] + WithoutFirst(s[i + 1..], client)
  {
  }

  lemma SearchedAll<C>(s: seq<C>, client: C)
    ensures Searched(s, |s|, client) ==> WithoutFirst(s, client) == s
  {
  }

  // ----- runs

  datatype Op<C> =
    | Add(key: string, client: C)
    | Remove(key: string)
    | RemoveClient(key: string, client: C)

  function Apply1<C(==)>(m: Clients<C>, op: Op<C>): Clients<C> {
    match op
    case Add(key, client) => Added(m, key, client)
    case Remove(key) => Removed(m, key)
    case RemoveClient(key, client) => ClientRemoved(m, key, client)
  }

  function Run<C(==)>(m: Clients<C>, ops: seq<Op<C>>): Clients<C> {
    if ops == [] then m else Apply1(Run(m, ops[..|ops| - 1]), ops[|ops| - 1])
  }

  /** The reference: one list per key, on which only the operations with that key act. */
  function Act<C(==)>(s: seq<C>, op: Op<C>, key: string): seq<C> {
    if op.key != key then s
    else
      match op
      case Add(_, client) => s + [client]
      case Remove(_) => []
      case RemoveClient(_, client) => WithoutFirst(s, client)
  }

  function Trace<C(==)>(s: seq<C>, ops: seq<Op<C>>, key: string): seq<C> {
    if ops == [] then s else Act(Trace(s, ops[..|ops| - 1], key), ops[|ops| - 1], key)
  }

  ghost predicate NoEmptyList<C>(m: Clients<C>) {
    forall key :: key in m ==> m[key] != []
  }

  lemma StepRefines<C>(m: Clients<C>, op: Op<C>, key: string)
    requires NoEmptyList(m)
    ensures NoEmptyList(Apply1(m, op))
    ensures Lookup(Apply1(m, op), key) == Act(Lookup(m, key), op, key)
  {
  }

  /** Over every run the registry is the family of reference lists, and stores no empty list. */
  lemma {:induction false} RunRefines<C>(m: Clients<C>, ops: seq<Op<C>>, key: string)
    requires NoEmptyList(m)
    ensures NoEmptyList(Run(m, ops))
    ensures Lookup(Run(m, ops), key) == Trace(Lookup(m, key), ops, key)
    ensures key in Run(m, ops) <==> Trace(Lookup(m, key), ops, key) != []
  {
    if ops != [] {
      RunRefines(m, ops[..|ops| - 1], key);
      StepRefines(Run(m, ops[..|ops| - 1]), ops[|ops| - 1], key);
    }
  }

  /** Registries without empty lists are equal when they answer alike. */
  lemma SameAnswersSameRegistry<C>(m: Clients<C>, m': Clients<C>)
    requires NoEmptyList(m) && NoEmptyList(m') && forall key :: Lookup(m, key) == Lookup(m', key)
    ensures m == m'
  {
    forall key ensures key in m <==> key in m' {
      assert Lookup(m, key) == Lookup(m', key);
    }
    forall key | key in m ensures m[key] == m'[key] {
      assert Lookup(m, key) == Lookup(m', key);
    }
  }

  /** Exactly the first occurrence goes, and the others keep their order; without one nothing changes. */
  lemma {:induction false} WithoutFirstLaw<C>(s: seq<C>, client: C) returns (before: seq<C>, after: seq<C>)
    ensures client in s ==> s == before + [client] + after && client !in before
                            && WithoutFirst(s, client) == before + after
    ensures client !in s ==> WithoutFirst(s, client) == s
  {
    before, after := [], [];
    if s != [] {
      assert s == [s[0]] + s[1..];
      if s[0] == client {
        after := s[1..];
      } else {
        assert WithoutFirst(s, client) == [s[0]] + WithoutFirst(s[1..], client);
        hide WithoutFirst;
        var b, a := WithoutFirstLaw(s[1..], client);
        before, after := [s[0]] + b, a;
        PrependBoth(s[0], b, client, a);
      }
    }
  }

  lemma PrependBoth<C>(x: C, before: seq<C>, client: C, after: seq<C>)
    ensures [x] + (before + [client] + after) == ([x] + before) + [client] + after
    ensures [x] + (before + after) == ([x] + before) + after
  {
  }

  // ----- a client that comes and goes

  /** `s` is `t` with at most one `client` more, and `t` has none. */
  ghost predicate OneMore<C>(s: seq<C>, t: seq<C>, client: C) {
    WithoutFirst(s, client) == t && client !in t
  }

  lemma {:induction false} AppendOther<C>(s: seq<C>, client: C, other: C)
    requires client != other
    ensures WithoutFirst(s + [other], client) == WithoutFirst(s, client) + [other]
  {
    if s == [] {
      assert WithoutFirst([other], client) == [other] + WithoutFirst([], client);
    } else {
      AppendOther(s[1..], client, other);
      assert (s + [other])[1..] == s[1..] + [other];
    }
  }

  lemma {:induction false} RemovalsCommute<C>(s: seq<C>, client: C, other: C)
    ensures WithoutFirst(WithoutFirst(s, client), other) == WithoutFirst(WithoutFirst(s, other), client)
  {
    if s != [] {
      RemovalsCommute(s[1..], client, other);
      if s[0] != client && s[0] != other {
        assert ([s[0]] + WithoutFirst(s[1..], client))[1..] == WithoutFirst(s[1..], client);
        assert ([s[0]] + WithoutFirst(s[1..], other))[1..] == WithoutFirst(s[1..], other);
      }
    }
  }

  lemma {:induction false} AddedOnce<C>(s: seq<C>, client: C)
    requires client !in s
    ensures WithoutFirst(s + [client], client) == s
  {
    if s != [] {
      AddedOnce(s[1..], client);
      assert (s + [client])[1..] == s[1..] + [client];
    }
  }

  lemma {:induction false} WithoutFirstSubset<C>(s: seq<C>, client: C, x: C)
    requires x in WithoutFirst(s, client)
    ensures x in s
  {
    if s != [] && s[0] != client && x != s[0] {
      WithoutFirstSubset(s[1..], client, x);
    }
  }

  /** No operation of `ops` adds or removes `client` at `key`; the whole key may be removed. */
  ghost predicate Ignores<C>(ops: seq<Op<C>>, key: string, client: C) {
    forall k :: 0 <= k < |ops| ==> ops[k].Remove? || ops[k].key != key || ops[k].client != client
  }

  lemma {:induction false} OneMoreTrace<C>(s: seq<C>, t: seq<C>, ops: seq<Op<C>>, key: string, client: C)
    requires OneMore(s, t, client) && Ignores(ops, key, client)
    ensures OneMore(Trace(s, ops, key), Trace(t, ops, key), client)
  {
    if ops != [] {
      var front, op := ops[..|ops| - 1], ops[|ops| - 1];
      OneMoreTrace(s, t, front, key, client);
      var s', t' := Trace(s, front, key), Trace(t, front, key);
      if op.key == key && op.Add? {
        AppendOther(s', client, op.client);
      } else if op.key == key && op.RemoveClient? {
        RemovalsCommute(s', client, op.client);
        if client in WithoutFirst(t', op.client) {
          WithoutFirstSubset(t', op.client, client);
        }
      }
    }
  }

  lemma {:induction false} TraceAppend<C>(s: seq<C>, first: seq<Op<C>>, second: seq<Op<C>>, key: string)
    ensures Trace(s, first + second, key) == Trace(Trace(s, first, key), second, key)
  {
    if second == [] {
      assert first + second == first;
    } else {
      assert (first + second)[..|first + second| - 1] == first + second[..|second| - 1];
      TraceAppend(s, first, second[..|second| - 1], key);
    }
  }

  /** A fresh client that is added, and removed after any operations of others, leaves no trace in the registry. */
  lemma ComesAndGoes<C>(m: Clients<C>, key: string, client: C, ops: seq<Op<C>>)
    requires NoEmptyList(m) && client !in Lookup(m, key) && Ignores(ops, key, client)
    ensures Run(m, [Add(key, client)] + ops + [RemoveClient(key, client)]) == Run(m, ops)
  {
    var session := [Add(key, client)] + ops + [RemoveClient(key, client)];
    RunRefines(m, session, key);
    RunRefines(m, ops, key);
    forall k ensures Lookup(Run(m, session), k) == Lookup(Run(m, ops), k) {
      RunRefines(m, session, k);
      RunRefines(m, ops, k);
      SessionTrace(Lookup(m, k), key, client, ops, k);
    }
    SameAnswersSameRegistry(Run(m, session), Run(m, ops));
  }

  lemma SessionTrace<C>(s: seq<C>, key: string, client: C, ops: seq<Op<C>>, k: string)
    requires k == key ==> client !in s
    requires Ignores(ops, key, client)
    ensures Trace(s, [Add(key, client)] + ops + [RemoveClient(key, client)], k) == Trace(s, ops, k)
  {
    TraceAppend(s, [Add(key, client)], ops, k);
    TraceAppend(s, [Add(key, client)] + ops, [RemoveClient(key, client)], k);
    TraceOne(s, Add(key, client), k);
    TraceOne(Trace(s, [Add(key, client)] + ops, k), RemoveClient(key, client), k);
    if k == key {
      AddedOnce(s, client);
      OneMoreTrace(s + [client], s, ops, key, client);
    }
  }

  lemma TraceOne<C>(s: seq<C>, op: Op<C>, key: string)
    ensures Trace(s, [op], key) == Act(s, op, key)
  {
  }
}
