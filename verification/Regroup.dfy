/** Rebuilding a request from the records that bypass the buffer
    (ensureScopeMetric, ensureScopeLog and ensureScopeSpan, internal/sink/runblock.go). */
module Regroup {
  import opened Basics
  import opened Otlp

  function AddToScopes<T(==)>(scopes: seq<ScopeGroup<T>>, e: Entry<T>): seq<ScopeGroup<T>> {
    if scopes == [] then [ScopeGroup(e.key.scope, e.key.scopeSchema, [e.record])]
    else if scopes[0].scope == e.key.scope && scopes[0].schemaUrl == e.key.scopeSchema then
      [scopes[0].(records := scopes[0].records + [e.record])] + scopes[1..]
    else [scopes[0]] + AddToScopes(scopes[1..], e)
  }

  /** One call of ensureScope*. */
  function AddTo<T(==)>(req: Request<T>, e: Entry<T>): Request<T> {
    if req == [] then [ResourceGroup(e.key.resource, e.key.resourceSchema, AddToScopes([], e))]
    else if req[0].resource == e.key.resource && req[0].schemaUrl == e.key.resourceSchema then
      [req[0].(scopes := AddToScopes(req[0].scopes, e))] + req[1..]
    else [req[0]] + AddTo(req[1..], e)
  }

  /** The bypass request after these records. */
  function Regrouped<T(==)>(es: seq<Entry<T>>): Request<T> {
    if es == [] then [] else AddTo(Regrouped(es[..|es| - 1]), es[|es| - 1])
  }

  predicate SameScope<T(==)>(s: ScopeGroup<T>, e: Entry<T>) {
    s.scope == e.key.scope && s.schemaUrl == e.key.scopeSchema
  }

  predicate SameResource<T(==)>(g: ResourceGroup<T>, e: Entry<T>) {
    g.resource == e.key.resource && g.schemaUrl == e.key.resourceSchema
  }

  lemma {:induction false} FirstScope<T>(scopes: seq<ScopeGroup<T>>, e: Entry<T>, j: nat)
    requires j <= |scopes| && (forall i :: 0 <= i < j ==> !SameScope(scopes[i], e))
    requires j < |scopes| ==> SameScope(scopes[j], e)
    ensures AddToScopes(scopes, e)
         == if j == |scopes| then scopes + [ScopeGroup(e.key.scope, e.key.scopeSchema, [e.record])]
            else scopes[j := scopes[j].(records := scopes[j].records + [e.record])]
  {
    if j > 0 { FirstScope(scopes[1..], e, j - 1); }
  }

  lemma {:induction false} FirstResource<T>(req: Request<T>, e: Entry<T>, i: nat)
    requires i <= |req| && (forall k :: 0 <= k < i ==> !SameResource(req[k], e))
    requires i < |req| ==> SameResource(req[i], e)
    ensures AddTo(req, e)
         == if i == |req| then req + [ResourceGroup(e.key.resource, e.key.resourceSchema, AddToScopes([], e))]
            else req[i := req[i].(scopes := AddToScopes(req[i].scopes, e))]
  {
    if i > 0 { FirstResource(req[1..], e, i - 1); }
  }

  /** The bypass request under construction. */
  class Bypass<T(==)> {
    var groups: Request<T>

    constructor ()
      ensures groups == []
    {
      groups := [];
    }

    method EnsureScope(e: Entry<T>)
      modifies this
      ensures groups == AddTo(old(groups), e)
    {
      var i := 0;
      while i < |groups| && !SameResource(groups[i], e)
        invariant 0 <= i <= |groups| && groups == old(groups)
        invariant forall k :: 0 <= k < i ==> !SameResource(groups[k], e)
      {
        i := i + 1;
      }
      FirstResource(groups, e, i);
      if i == |groups| {
        groups := groups + [ResourceGroup(e.key.resource, e.key.resourceSchema, [])];
      }
      var scopes := EnsureIn(groups[i].scopes, e);
      groups := groups[i := groups[i].(scopes := scopes)];
    }

    static method EnsureIn(scopes: seq<ScopeGroup<T>>, e: Entry<T>) returns (r: seq<ScopeGroup<T>>)
      ensures r == AddToScopes(scopes, e)
    {
      var j := 0;
      while j < |scopes| && !SameScope(scopes[j], e)
        invariant 0 <= j <= |scopes|
        invariant forall i :: 0 <= i < j ==> !SameScope(scopes[i], e)
      {
        j := j + 1;
      }
      FirstScope(scopes, e, j);
      r := scopes;
      if j == |r| {
        r := r + [ScopeGroup(e.key.scope, e.key.scopeSchema, [])];
      }
      assert [] + [e.record] == [e.record];
      r := r[j := r[j].(records := r[j].records + [e.record])];
    }
  }

  // ---- Nothing lost, nothing moved ----

  function InsertAt<T>(s: seq<T>, k: nat, x: T): seq<T>
    requires k <= |s|
  {
    s[..k] + [x] + s[k..]
  }

  lemma InsertAtLeft<T>(a: seq<T>, b: seq<T>, k: nat, x: T)
    requires k <= |a|
    ensures InsertAt(a + b, k, x) == InsertAt(a, k, x) + b
  {}

  lemma InsertAtRight<T>(a: seq<T>, b: seq<T>, k: nat, x: T)
    requires k <= |b|
    ensures InsertAt(a + b, |a| + k, x) == a + InsertAt(b, k, x)
  {}

  lemma {:induction false} AddToScopesInserts<T>(resource: Option<Resource>, schema: string, scopes: seq<ScopeGroup<T>>, e: Entry<T>)
    returns (k: nat)
    requires e.key.resource == resource && e.key.resourceSchema == schema
    ensures var es := ResourceEntries(resource, schema, scopes);
            k <= |es| && ResourceEntries(resource, schema, AddToScopes(scopes, e)) == InsertAt(es, k, e)
  {
    if scopes == [] {
      k := 0;
      assert AddToScopes(scopes, e)[1..] == [];
    } else {
      var first := ScopeEntries(resource, schema, scopes[0]);
      var rest := ResourceEntries(resource, schema, scopes[1..]);
      if scopes[0].scope == e.key.scope && scopes[0].schemaUrl == e.key.scopeSchema {
        k := |first|;
        var grown := scopes[0].(records := scopes[0].records + [e.record]);
        assert ScopeEntries(resource, schema, grown) == first + [e] == InsertAt(first, k, e);
        assert AddToScopes(scopes, e)[1..] == scopes[1..];
        InsertAtLeft(first, rest, k, e);
      } else {
        var j := AddToScopesInserts(resource, schema, scopes[1..], e);
        k := |first| + j;
        assert AddToScopes(scopes, e)[1..] == AddToScopes(scopes[1..], e);
        InsertAtRight(first, rest, j, e);
      }
    }
  }

  /** ensureScope* inserts the record somewhere and changes nothing else. */
  lemma {:induction false} AddToInserts<T>(req: Request<T>, e: Entry<T>) returns (k: nat)
    ensures k <= |Entries(req)| && Entries(AddTo(req, e)) == InsertAt(Entries(req), k, e)
  {
    if req == [] {
      k := AddToScopesInserts(e.key.resource, e.key.resourceSchema, [], e);
      assert AddTo(req, e)[1..] == [];
    } else {
      var first := ResourceEntries(req[0].resource, req[0].schemaUrl, req[0].scopes);
      var rest := Entries(req[1..]);
      if req[0].resource == e.key.resource && req[0].schemaUrl == e.key.resourceSchema {
        k := AddToScopesInserts(req[0].resource, req[0].schemaUrl, req[0].scopes, e);
        assert AddTo(req, e)[1..] == req[1..];
        InsertAtLeft(first, rest, k, e);
      } else {
        var j := AddToInserts(req[1..], e);
        k := |first| + j;
        assert AddTo(req, e)[1..] == AddTo(req[1..], e);
        InsertAtRight(first, rest, j, e);
      }
    }
  }

  lemma InsertAtElements<T>(s: seq<T>, k: nat, x: T)
    requires k <= |s|
    ensures multiset(InsertAt(s, k, x)) == multiset(s) + multiset{x}
  {
    assert s == s[..k] + s[k..];
  }

  /** The bypass request holds exactly the records put in, each under the very
      resource and scope it came with. */
  lemma {:induction false} RegroupedIsPermutation<T>(es: seq<Entry<T>>)
    ensures multiset(Entries(Regrouped(es))) == multiset(es)
  {
    if es != [] {
      var init, last := es[..|es| - 1], es[|es| - 1];
      RegroupedIsPermutation(init);
      var k := AddToInserts(Regrouped(init), last);
      InsertAtElements(Entries(Regrouped(init)), k, last);
      assert es == init + [last];
    }
  }

  // ---- Order within a key ----

  /** The records sent under one resource and scope, in order. */
  function Under<T>(es: seq<Entry<T>>, key: Key): seq<Entry<T>> {
    if es == [] then [] else (if es[0].key == key then [es[0]] else []) + Under(es[1..], key)
  }

  lemma {:induction false} UnderAppend<T>(a: seq<Entry<T>>, b: seq<Entry<T>>, key: Key)
    ensures Under(a + b, key) == Under(a, key) + Under(b, key)
  {
    if a == [] {
      assert a + b == b;
    } else {
      Others(a, b);
      UnderAppend(a[1..], b, key);
    }
  }

  /** No shell is empty and no two shells answer to the same key. */
  ghost predicate DistinctScopes<T>(scopes: seq<ScopeGroup<T>>) {
    && (forall s <- scopes :: s.records != [])
    && forall i, j :: 0 <= i < j < |scopes| ==>
         !(scopes[i].scope == scopes[j].scope && scopes[i].schemaUrl == scopes[j].schemaUrl)
  }

  ghost predicate WellGrouped<T>(req: Request<T>) {
    && (forall g <- req :: g.scopes != [] && DistinctScopes(g.scopes))
    && forall i, j :: 0 <= i < j < |req| ==>
         !(req[i].resource == req[j].resource && req[i].schemaUrl == req[j].schemaUrl)
  }

  lemma {:induction false} AddToScopesDistinct<T>(scopes: seq<ScopeGroup<T>>, e: Entry<T>)
    requires DistinctScopes(scopes)
    ensures var r := AddToScopes(scopes, e);
            && r != [] && DistinctScopes(r)
            && forall s <- r :: (s.scope == e.key.scope && s.schemaUrl == e.key.scopeSchema)
                                || exists t <- scopes :: s.scope == t.scope && s.schemaUrl == t.schemaUrl
  {
    if scopes != [] && !(scopes[0].scope == e.key.scope && scopes[0].schemaUrl == e.key.scopeSchema) {
      AddToScopesDistinct(scopes[1..], e);
    }
  }

  lemma {:induction false} AddToWellGrouped<T>(req: Request<T>, e: Entry<T>)
    requires WellGrouped(req)
    ensures var r := AddTo(req, e);
            && r != [] && WellGrouped(r)
            && forall g <- r :: (g.resource == e.key.resource && g.schemaUrl == e.key.resourceSchema)
                                || exists h <- req :: g.resource == h.resource && g.schemaUrl == h.schemaUrl
  {
    if req == [] {
      AddToScopesDistinct([], e);
    } else if req[0].resource == e.key.resource && req[0].schemaUrl == e.key.resourceSchema {
      AddToScopesDistinct(req[0].scopes, e);
    } else {
      AddToWellGrouped(req[1..], e);
    }
  }

  lemma {:induction false} RegroupedWellGrouped<T>(es: seq<Entry<T>>)
    ensures WellGrouped(Regrouped(es)) && (Regrouped(es) == [] <==> es == [])
  {
    if es != [] {
      RegroupedWellGrouped(es[..|es| - 1]);
      AddToWellGrouped(Regrouped(es[..|es| - 1]), es[|es| - 1]);
    }
  }

  lemma {:induction false} NoneInScopes<T>(resource: Option<Resource>, schema: string, scopes: seq<ScopeGroup<T>>, key: Key)
    requires forall s <- scopes :: !(Key(resource, schema, s.scope, s.schemaUrl) == key)
    ensures Under(ResourceEntries(resource, schema, scopes), key) == []
  {
    if scopes != [] {
      NoneUnder(ScopeEntries(resource, schema, scopes[0]), key);
      NoneInScopes(resource, schema, scopes[1..], key);
      UnderAppend(ScopeEntries(resource, schema, scopes[0]), ResourceEntries(resource, schema, scopes[1..]), key);
    }
  }

  lemma {:induction false} NoneUnder<T>(es: seq<Entry<T>>, key: Key)
    requires forall e <- es :: e.key != key
    ensures Under(es, key) == []
  {
    if es != [] { NoneUnder(es[1..], key); }
  }

  lemma {:induction false} NoneInRequest<T>(req: Request<T>, key: Key)
    requires forall g <- req :: !(g.resource == key.resource && g.schemaUrl == key.resourceSchema)
    ensures Under(Entries(req), key) == []
  {
    if req != [] {
      NoneInScopes(req[0].resource, req[0].schemaUrl, req[0].scopes, key);
      NoneInRequest(req[1..], key);
      UnderAppend(ResourceEntries(req[0].resource, req[0].schemaUrl, req[0].scopes), Entries(req[1..]), key);
    }
  }

  lemma {:induction false} AddToScopesUnder<T>(resource: Option<Resource>, schema: string, scopes: seq<ScopeGroup<T>>, e: Entry<T>, key: Key)
    requires e.key.resource == resource && e.key.resourceSchema == schema && DistinctScopes(scopes)
    ensures Under(ResourceEntries(resource, schema, AddToScopes(scopes, e)), key)
         == Under(ResourceEntries(resource, schema, scopes), key) + Under([e], key)
  {
    var r := AddToScopes(scopes, e);
    if scopes == [] {
      assert r[1..] == [] && ScopeEntries(resource, schema, r[0]) == [e];
      assert ResourceEntries(resource, schema, r) == [e] + [];
    } else {
      var first := ScopeEntries(resource, schema, scopes[0]);
      var rest := ResourceEntries(resource, schema, scopes[1..]);
      UnderAppend(first, rest, key);
      if SameScope(scopes[0], e) {
        AddToFirstScope(resource, schema, scopes, e, key);
      } else {
        assert r[1..] == AddToScopes(scopes[1..], e);
        AddToScopesUnder(resource, schema, scopes[1..], e, key);
        UnderAppend(first, ResourceEntries(resource, schema, r[1..]), key);
        Associative(Under(first, key), Under(rest, key), Under([e], key));
      }
    }
  }

  lemma {:induction false} AddToFirstScope<T>(resource: Option<Resource>, schema: string, scopes: seq<ScopeGroup<T>>, e: Entry<T>, key: Key)
    requires e.key.resource == resource && e.key.resourceSchema == schema && DistinctScopes(scopes)
    requires scopes != [] && SameScope(scopes[0], e)
    ensures Under(ResourceEntries(resource, schema, AddToScopes(scopes, e)), key)
         == Under(ResourceEntries(resource, schema, scopes), key) + Under([e], key)
  {
    var r := AddToScopes(scopes, e);
    var first := ScopeEntries(resource, schema, scopes[0]);
    var rest := ResourceEntries(resource, schema, scopes[1..]);
    assert r[1..] == scopes[1..] && ScopeEntries(resource, schema, r[0]) == first + [e];
    UnderAppend(first, rest, key);
    UnderAppend(first + [e], rest, key);
    UnderAppend(first, [e], key);
    if key == e.key { NoneInScopes(resource, schema, scopes[1..], key); }
    Swap(Under(first, key), Under(rest, key), Under([e], key));
  }

  /** Room for `u` behind `a` is room behind `a + b` when one of the two is empty. */
  lemma Swap<T>(a: seq<T>, b: seq<T>, u: seq<T>)
    requires b == [] || u == []
    ensures (a + u) + b == (a + b) + u
  {}

  lemma {:induction false} AddToUnder<T>(req: Request<T>, e: Entry<T>, key: Key)
    requires WellGrouped(req)
    ensures Under(Entries(AddTo(req, e)), key) == Under(Entries(req), key) + Under([e], key)
  {
    var r := AddTo(req, e);
    if req == [] {
      AddToScopesUnder(e.key.resource, e.key.resourceSchema, [], e, key);
      assert r[1..] == [];
      assert Entries(r) == ResourceEntries(e.key.resource, e.key.resourceSchema, r[0].scopes) + [];
    } else if SameResource(req[0], e) {
      AddToFirstUnder(req, e, key);
    } else {
      var first := ResourceEntries(req[0].resource, req[0].schemaUrl, req[0].scopes);
      assert r[1..] == AddTo(req[1..], e) && r[0] == req[0];
      AddToUnder(req[1..], e, key);
      UnderAppend(first, Entries(req[1..]), key);
      UnderAppend(first, Entries(r[1..]), key);
    }
  }

  lemma {:induction false} AddToFirstUnder<T>(req: Request<T>, e: Entry<T>, key: Key)
    requires WellGrouped(req) && req != [] && SameResource(req[0], e)
    ensures Under(Entries(AddTo(req, e)), key) == Under(Entries(req), key) + Under([e], key)
  {
    var r := AddTo(req, e);
    var first := ResourceEntries(req[0].resource, req[0].schemaUrl, req[0].scopes);
    var grown := ResourceEntries(req[0].resource, req[0].schemaUrl, r[0].scopes);
    var rest := Entries(req[1..]);
    assert r[1..] == req[1..];
    AddToScopesUnder(req[0].resource, req[0].schemaUrl, req[0].scopes, e, key);
    UnderAppend(first, rest, key);
    UnderAppend(grown, rest, key);
    if key == e.key { NoneInRequest(req[1..], key); }
    Swap(Under(first, key), Under(rest, key), Under([e], key));
  }

  /** Within one resource, schema, scope and schema the records keep their order. */
  lemma {:induction false} RegroupedKeepsOrder<T>(es: seq<Entry<T>>, key: Key)
    ensures Under(Entries(Regrouped(es)), key) == Under(es, key)
  {
    if es != [] {
      var init, last := es[..|es| - 1], es[|es| - 1];
      RegroupedKeepsOrder(init, key);
      RegroupedWellGrouped(init);
      AddToUnder(Regrouped(init), last, key);
      assert es == init + [last];
      UnderAppend(init, [last], key);
    }
  }

  // ---- Counting what the records contribute ----

  /** The sum of what `f` gives for each record. */
  function BagOf<T>(f: Entry<T> -> multiset<string>, es: seq<Entry<T>>): multiset<string> {
    if es == [] then multiset{} else f(es[0]) + BagOf(f, es[1..])
  }

  lemma {:induction false} BagOfAppend<T>(f: Entry<T> -> multiset<string>, a: seq<Entry<T>>, b: seq<Entry<T>>)
    ensures BagOf(f, a + b) == BagOf(f, a) + BagOf(f, b)
  {
    if a == [] {
      assert a + b == b;
    } else {
      Others(a, b);
      BagOfAppend(f, a[1..], b);
    }
  }

  lemma BagOfSnoc<T>(f: Entry<T> -> multiset<string>, es: seq<Entry<T>>)
    requires es != []
    ensures BagOf(f, es) == BagOf(f, es[..|es| - 1]) + f(es[|es| - 1])
  {
    var last := [es[|es| - 1]];
    assert es == es[..|es| - 1] + last && last[1..] == [];
    BagOfAppend(f, es[..|es| - 1], last);
  }

  /** Regrouping does not change what the records add up to. */
  lemma {:induction false} RegroupedBag<T>(f: Entry<T> -> multiset<string>, es: seq<Entry<T>>)
    ensures BagOf(f, Entries(Regrouped(es))) == BagOf(f, es)
  {
    if es != [] {
      var init, e := es[..|es| - 1], es[|es| - 1];
      RegroupedBag(f, init);
      BagOfSnoc(f, es);
      var k := AddToInserts(Regrouped(init), e);
      BagOfInsertAt(f, Entries(Regrouped(init)), k, e);
    }
  }

  lemma BagOfInsertAt<T>(f: Entry<T> -> multiset<string>, s: seq<Entry<T>>, k: nat, e: Entry<T>)
    requires k <= |s|
    ensures BagOf(f, InsertAt(s, k, e)) == BagOf(f, s) + f(e)
  {
    var a, b, one := s[..k], s[k..], [e];
    assert s == a + b && InsertAt(s, k, e) == (a + one) + b && one[1..] == [];
    BagOfAppend(f, a, b);
    BagOfAppend(f, a, one);
    BagOfAppend(f, a + one, b);
  }
}
