/** The values JSON text stands for, and the errors the parser reports. */
module JsonValues {
  import opened CodeUnits
  import opened BigNumbers

  datatype Json =
    | Null
    | Bool(b: bool)
    | Str(s: Text)
    | Num(n: BigNumber)
    | Arr(items: seq<Json>)
    | Obj(object: Object)

  datatype Member = Member(key: Text, value: Json)

  /** Own members in the order they were written or inserted, with distinct keys, and a prototype. */
  datatype Object = Object(proto: Proto, members: seq<Member>)

  /** The prototype of every new object, none at all, or another array, number or object. */
  datatype Proto = Standard | Bare | Inherits(from: Json)

  const EMPTY: Object := Object(Standard, [])

  datatype SyntaxError =
    | Expected(wanted: Unit, got: int)
    | Unexpected(got: int)
    | BadNumber
    | BadString
    | BadArray
    | BadObject
    | DuplicateKey(key: Text)
    | TrailingText

  datatype Result<+T> = Success(value: T) | Failure(error: SyntaxError) {
    predicate IsFailure() { Failure? }
    function PropagateFailure<U>(): Result<U>
      requires Failure?
    {
      Failure(error)
    }
    function Extract(): T
      requires Success?
    {
      value
    }
  }

  /** The key whose assignment sets an object's prototype, where it inherits the standard setter. */
  const PROTO: Text := [0x5F, 0x5F, 0x70, 0x72, 0x6F, 0x74, 0x6F, 0x5F, 0x5F]

  const LETTER_U: Unit := 0x75
  const TRUE_TEXT: Text := [0x74, 0x72, 0x75, 0x65]
  const FALSE_TEXT: Text := [0x66, 0x61, 0x6C, 0x73, 0x65]
  const NULL_TEXT: Text := [0x6E, 0x75, 0x6C, 0x6C]

  predicate HasKey(members: seq<Member>, key: Text) {
    exists i :: 0 <= i < |members| && members[i].key == key
  }

  predicate DistinctKeys(members: seq<Member>) {
    forall i, j :: 0 <= i < j < |members| ==> members[i].key != members[j].key
  }

  /** The setter is at the end of the prototype chain, unless a member of its name is on the way. */
  predicate HasSetter(p: Proto) {
    match p
    case Standard => true
    case Bare => false
    case Inherits(Obj(o)) => !HasKey(o.members, PROTO) && HasSetter(o.proto)
    case Inherits(_) => true
  }

  predicate SetsPrototype(o: Object, key: Text) {
    key == PROTO && HasSetter(o.proto)
  }

  /** `obj[key] = value` for a key the object does not own yet. The setter ignores texts and booleans. */
  function Assign(o: Object, key: Text, value: Json): Object {
    if !SetsPrototype(o, key) then o.(members := o.members + [Member(key, value)])
    else match value
         case Null => o.(proto := Bare)
         case Arr(_) | Num(_) | Obj(_) => o.(proto := Inherits(value))
         case _ => o
  }

  lemma KeyAdded(o: Object, key: Text, v: Json, n: Text)
    ensures HasKey(Assign(o, key, v).members, n) <==> HasKey(o.members, n) || (n == key && !SetsPrototype(o, key))
  {
    var ms := Assign(o, key, v).members;
    if !SetsPrototype(o, key) {
      assert ms[|o.members|].key == key;
      assert forall i :: 0 <= i < |o.members| ==> ms[i] == o.members[i];
    }
  }
}
