/**
 Which documents of the grammar have a value, and what it is, said without following the parser: numbers
 in range, names apart within each object, and then simply the value of every part in its place.
 */
module JsonStandard {
  import opened Sequences
  import opened CodeUnits
  import opened BigNumbers
  import opened JsonValues
  import opened JsonSyntax
  import opened JsonReading
  import opened JsonGrammar
  import JsonPrinting
  import JsonRoundTrip

  // ---------- The names of an object ----------

  /** A prototype without the setter: from then on `__proto__` is a name like any other. */
  predicate RemovesSetter(v: Json) {
    v.Null? || (v.Obj? && !HasSetter(Inherits(v)))
  }

  /**
   No name is used twice, except that `__proto__` may be repeated as long as it is not a member: until
   the object has lost the setter, which it has at the start if `setter` holds.
   */
  predicate Apart(written: seq<Member>, setter: bool) {
    forall i, j :: 0 <= i < j < |written| && written[i].key == written[j].key ==>
      && written[i].key == PROTO && setter
      && forall k :: 0 <= k < i && written[k].key == PROTO ==> !RemovesSetter(written[k].value)
  }

  /** The object with one assignment for each member, in order. */
  function Assigned(written: seq<Member>, o: Object): Object {
    if written == [] then o else Assigned(written[1..], Assign(o, written[0].key, written[0].value))
  }

  /** Without `__proto__` names must be distinct, and the members are those written. */
  lemma {:induction false} OrdinaryNames(written: seq<Member>, o: Object)
    requires !HasKey(written, PROTO)
    ensures Apart(written, HasSetter(o.proto)) <==> DistinctKeys(written)
    ensures Assigned(written, o) == Object(o.proto, o.members + written)
  {
    if written == [] {
      assert o.members + written == o.members;
    } else {
      var first, rest := [written[0]], written[1..];
      assert written == first + rest;
      assert !HasKey(rest, PROTO);
      OrdinaryNames(rest, Assign(o, written[0].key, written[0].value));
      Associates(o.members, first, rest);
    }
  }

  /** Each name is not a member yet when it is its turn. */
  ghost predicate FreeInTurn(written: seq<Member>, o: Object) {
    written != [] ==>
      !HasKey(o.members, written[0].key) && FreeInTurn(written[1..], Assign(o, written[0].key, written[0].value))
  }

  ghost predicate Unused(written: seq<Member>, o: Object) {
    forall i :: 0 <= i < |written| ==> !HasKey(o.members, written[i].key)
  }

  lemma SetterAfter(o: Object, key: Text, v: Json)
    ensures HasSetter(Assign(o, key, v).proto) <==> HasSetter(o.proto) && !(key == PROTO && RemovesSetter(v))
  {
  }

  lemma FirstStep(written: seq<Member>, o: Object)
    requires written != [] && Unused(written, o) && Apart(written, HasSetter(o.proto))
    ensures var o', rest := Assign(o, written[0].key, written[0].value), written[1..];
            Unused(rest, o') && Apart(rest, HasSetter(o'.proto))
  {
    var key, v, rest := written[0].key, written[0].value, written[1..];
    SetterAfter(o, key, v);
    forall i | 0 <= i < |rest| ensures !HasKey(Assign(o, key, v).members, rest[i].key) {
      assert rest[i] == written[i + 1];
      KeyAdded(o, key, v, rest[i].key);
    }
    forall i, j | 0 <= i < j < |rest| && rest[i].key == rest[j].key
      ensures rest[i].key == PROTO && HasSetter(Assign(o, key, v).proto)
      ensures forall k :: 0 <= k < i && rest[k].key == PROTO ==> !RemovesSetter(rest[k].value)
    {
      assert rest[i] == written[i + 1] && rest[j] == written[j + 1];
      assert forall k :: 0 <= k < i ==> rest[k] == written[k + 1];
    }
  }

  lemma FirstStepBack(written: seq<Member>, o: Object)
    requires written != [] && !HasKey(o.members, written[0].key)
    requires var o', rest := Assign(o, written[0].key, written[0].value), written[1..];
             Unused(rest, o') && Apart(rest, HasSetter(o'.proto))
    ensures Unused(written, o) && Apart(written, HasSetter(o.proto))
  {
    var key, v, rest := written[0].key, written[0].value, written[1..];
    SetterAfter(o, key, v);
    forall i | 0 < i < |written|
      ensures !HasKey(o.members, written[i].key)
      ensures written[i].key == key ==> SetsPrototype(o, key)
    {
      assert written[i] == rest[i - 1];
      KeyAdded(o, key, v, rest[i - 1].key);
    }
    forall i, j | 0 <= i < j < |written| && written[i].key == written[j].key
      ensures written[i].key == PROTO && HasSetter(o.proto)
      ensures forall k :: 0 <= k < i && written[k].key == PROTO ==> !RemovesSetter(written[k].value)
    {
      if i > 0 {
        assert rest[i - 1] == written[i] && rest[j - 1] == written[j];
        assert forall k :: 0 < k < i ==> written[k] == rest[k - 1];
      }
    }
  }

  lemma {:induction false} FreeInTurnExactly(written: seq<Member>, o: Object)
    ensures FreeInTurn(written, o) <==> Unused(written, o) && Apart(written, HasSetter(o.proto))
  {
    if written != [] {
      var rest, o' := written[1..], Assign(o, written[0].key, written[0].value);
      FreeInTurnExactly(rest, o');
      if FreeInTurn(written, o) { FirstStepBack(written, o); }
      if Unused(written, o) && Apart(written, HasSetter(o.proto)) { FirstStep(written, o); }
    }
  }

  // ---------- Documents ----------

  ghost predicate Faultless(t: Tree)
    requires GoodTree(t)
    decreases t
  {
    match t
    case NumberTree(nt) => Log10(Mantissa(nt)) + Scale(nt) <= 10_000_000 || Mantissa(nt) == 0
    case ArrayTree(es) => FaultlessElems(es)
    case ObjectTree(es) => FaultlessEntries(es) && Apart(Written(es), true)
    case _ => true
  }

  ghost predicate FaultlessElems(es: Elems)
    requires GoodElems(es)
    decreases es
  {
    Faultless(es.tree) && (es.MoreElems? ==> FaultlessElems(es.tail))
  }

  ghost predicate FaultlessEntries(es: Entries)
    requires GoodEntries(es)
    decreases es
  {
    Faultless(es.tree) && (es.MoreEntries? ==> FaultlessEntries(es.tail))
  }

  ghost function Meaning(t: Tree): Json
    requires GoodTree(t)
    decreases t
  {
    match t
    case NullTree => Null
    case TrueTree => Bool(true)
    case FalseTree => Bool(false)
    case StringTree(xs) => Str(ItemsValue(xs))
    case NumberTree(nt) => Num(Construct(nt))
    case EmptyArray(_) => Arr([])
    case ArrayTree(es) => Arr(ElemsMeaning(es))
    case EmptyObject(_) => Obj(EMPTY)
    case ObjectTree(es) => Obj(Assigned(Written(es), EMPTY))
  }

  ghost function ElemsMeaning(es: Elems): seq<Json>
    requires GoodElems(es)
    decreases es
  {
    [Meaning(es.tree)] + if es.LastElem? then [] else ElemsMeaning(es.tail)
  }

  /** The names and values of an object in the order they are written. */
  ghost function Written(es: Entries): seq<Member>
    requires GoodEntries(es)
    decreases es
  {
    [Member(ItemsValue(es.key), Meaning(es.tree))] + if es.LastEntry? then [] else Written(es.tail)
  }

  /** A tree denotes a value exactly when it has no fault, and then its meaning. */
  lemma {:induction false} DenotesItsMeaning(t: Tree)
    requires GoodTree(t)
    ensures Denote(t).Success? <==> Faultless(t)
    ensures Faultless(t) ==> Denote(t) == Success(Meaning(t))
    decreases t, 0
  {
    match t
    case NumberTree(nt) => ConstructValue(nt);
    case ArrayTree(es) =>
      ElemsDenoteTheirMeaning(es, []);
      assert [] + ElemsMeaning(es) == ElemsMeaning(es);
    case ObjectTree(es) =>
      EntriesDenoteTheirMeaning(es, EMPTY);
      FreeInTurnExactly(Written(es), EMPTY);
    case _ =>
  }

  lemma {:induction false} ElemsDenoteTheirMeaning(es: Elems, acc: seq<Json>)
    requires GoodElems(es)
    ensures DenoteElems(es, acc).Success? <==> FaultlessElems(es)
    ensures FaultlessElems(es) ==> DenoteElems(es, acc) == Success(acc + ElemsMeaning(es))
    decreases es, 1
  {
    var v := Meaning(es.tree);
    DenotesItsMeaning(es.tree);
    if es.LastElem? {
      assert ElemsMeaning(es) == [v];
    } else if Faultless(es.tree) {
      ElemsDenoteTheirMeaning(es.tail, acc + [v]);
      Associates(acc, [v], ElemsMeaning(es.tail));
    }
  }

  lemma {:induction false} EntriesDenoteTheirMeaning(es: Entries, acc: Object)
    requires GoodEntries(es)
    ensures DenoteEntries(es, acc).Success? <==> FaultlessEntries(es) && FreeInTurn(Written(es), acc)
    ensures DenoteEntries(es, acc).Success? ==> DenoteEntries(es, acc) == Success(Assigned(Written(es), acc))
    decreases es, 1
  {
    var key, v := ItemsValue(es.key), Meaning(es.tree);
    DenotesItsMeaning(es.tree);
    if es.LastEntry? {
      assert Written(es)[1..] == [];
    } else {
      assert Written(es)[1..] == Written(es.tail);
      EntriesDenoteTheirMeaning(es.tail, Assign(acc, key, v));
    }
  }

  /**
   Every text of RFC 8259, sections 2 to 7, whose names are apart within each object and whose numbers are
   in range is accepted, with the value it stands for; any other text of that grammar is refused.
   */
  lemma AcceptsTheStandard(before: Text, t: Tree, after: Text)
    requires StrictBlank(before) && StrictTree(t) && StrictBlank(after)
    ensures GoodTree(t)
    ensures ReadDocument(DocumentText(before, t, after)).Success? <==> Faultless(t)
    ensures Faultless(t) ==> ReadDocument(DocumentText(before, t, after)) == Success(Meaning(t))
  {
    StrictIsGood(t);
    AcceptsGrammar(before, t, after);
    DenotesItsMeaning(t);
  }

  // ---------- A name that is and is not a member ----------

  /** `n + 1` members named alike, all of them null. */
  ghost function Nulls(name: Text, n: nat): Entries {
    var key := JsonPrinting.ItemsOf(name);
    if n == 0 then LastEntry([], key, [], [], NullTree, [])
    else MoreEntries([], key, [], [], NullTree, [], Nulls(name, n - 1))
  }

  lemma NameItems(name: Text)
    ensures var key := JsonPrinting.ItemsOf(name); GoodItems(key) && ItemsValue(key) == name
  {
    JsonRoundTrip.ItemsOfText(name, []);
  }

  lemma {:induction false} NullsAreGood(name: Text, n: nat)
    ensures GoodEntries(Nulls(name, n)) && ItemsValue(Nulls(name, n).key) == name
  {
    NameItems(name);
    if n > 0 {
      NullsAreGood(name, n - 1);
      assert Nulls(name, n).tail == Nulls(name, n - 1);
    } else {
      assert Nulls(name, n).LastEntry?;
    }
  }

  lemma ReadsObject(es: Entries)
    requires GoodEntries(es)
    ensures var r, o := ReadDocument(TreeTo(ObjectTree(es), [])), DenoteEntries(es, EMPTY);
            r == if o.Success? then Success(Obj(o.value)) else Failure(o.error)
  {
    JsonRoundTrip.BareDocument(ObjectTree(es));
    AcceptsGrammar([], ObjectTree(es), []);
  }

  /**
   `{"__proto__":null}` has no prototype and no member; a second `__proto__` is then a member, and a third
   is refused as a repeated name.
   */
  lemma NullPrototypes(name: Text, n: nat)
    requires JsonRoundTrip.Spells(name, "__proto__")
    ensures ReadDocument(TreeTo(ObjectTree(Nulls(name, n)), [])) ==
            if n == 0 then Success(Obj(Object(Bare, [])))
            else if n == 1 then Success(Obj(Object(Bare, [Member(name, Null)])))
            else Failure(DuplicateKey(name))
  {
    NullsAreGood(name, n);
    ReadsObject(Nulls(name, n));
    NullsAssigned(name);
    NullsDenote(name, n, Object(Bare, []), Object(Bare, [Member(name, Null)]));
  }

  lemma NullsStep(name: Text, n: nat, acc: Object)
    requires GoodEntries(Nulls(name, n))
    ensures n > 0 ==> GoodEntries(Nulls(name, n - 1))
    ensures DenoteEntries(Nulls(name, n), acc) ==
            if HasKey(acc.members, name) then Failure(DuplicateKey(name))
            else if n == 0 then Success(Assign(acc, name, Null))
            else DenoteEntries(Nulls(name, n - 1), Assign(acc, name, Null))
  {
    NullsAreGood(name, n);
  }

  lemma NullsAssigned(name: Text)
    requires JsonRoundTrip.Spells(name, "__proto__")
    ensures Assign(EMPTY, name, Null) == Object(Bare, [])
    ensures Assign(Object(Bare, []), name, Null) == Object(Bare, [Member(name, Null)])
    ensures HasKey([Member(name, Null)], name)
  {
    JsonRoundTrip.SpeltProto(name);
    assert [Member(name, Null)][0].key == name;
  }

  lemma NullsDenote(name: Text, n: nat, one: Object, two: Object)
    requires GoodEntries(Nulls(name, n))
    requires Assign(EMPTY, name, Null) == one && !HasKey(one.members, name)
    requires Assign(one, name, Null) == two && HasKey(two.members, name)
    ensures DenoteEntries(Nulls(name, n), EMPTY) ==
            if n == 0 then Success(one) else if n == 1 then Success(two) else Failure(DuplicateKey(name))
  {
    NullsStep(name, n, EMPTY);
    if n > 0 { NullsStep(name, n - 1, one); }
    if n > 1 { NullsStep(name, n - 2, two); }
  }
}
