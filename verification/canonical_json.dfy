/** common/canonical.py: keys sorted by code point at every level, compact text, UTF-8. */
module CanonicalJson {
  import opened Wrappers
  import opened JsonText
  import Utf8

  // ---------- Key order ----------

  predicate Less(a: string, b: string) {
    b != "" && (a == "" || a[0] < b[0] || (a[0] == b[0] && Less(a[1..], b[1..])))
  }

  lemma {:induction false} LessIsTotal(a: string, b: string)
    ensures if a == b then !Less(a, b) else Less(a, b) <==> !Less(b, a)
  {
    if a != "" && b != "" && a[0] == b[0] {
      LessIsTotal(a[1..], b[1..]);
      assert a == [a[0]] + a[1..] && b == [b[0]] + b[1..];
    }
  }

  lemma {:induction false} LessIsTransitive(a: string, b: string, c: string)
    requires Less(a, b) && Less(b, c)
    ensures Less(a, c)
  {
    if a != "" && a[0] == b[0] == c[0] {
      LessIsTransitive(a[1..], b[1..], c[1..]);
    }
  }

  /** The order of code points: at the first place where the keys differ the smaller character comes
      first, and a key comes before its extensions. */
  predicate DiffersAt(a: string, b: string, k: nat) {
    k <= |a| && k < |b| && a[..k] == b[..k] && (k == |a| || a[k] < b[k])
  }

  lemma {:induction false} LessIff(a: string, b: string)
    ensures Less(a, b) <==> exists k: nat :: DiffersAt(a, b, k)
  {
    if a == "" || b == "" || a[0] != b[0] {
      assert Less(a, b) ==> DiffersAt(a, b, 0);
      forall k: nat | DiffersAt(a, b, k)
        ensures Less(a, b)
      {
        assert k > 0 ==> a[..k][0] == b[..k][0];
      }
    } else {
      LessIff(a[1..], b[1..]);
      if k: nat :| DiffersAt(a[1..], b[1..], k) {
        assert a[..k + 1] == [a[0]] + a[1..][..k] && b[..k + 1] == [b[0]] + b[1..][..k];
        assert DiffersAt(a, b, k + 1);
      }
      if k: nat :| DiffersAt(a, b, k) {
        assert k > 0;
        assert a[1..][..k - 1] == a[..k][1..] && b[1..][..k - 1] == b[..k][1..];
        assert DiffersAt(a[1..], b[1..], k - 1);
      }
    }
  }

  // ---------- The canonical form ----------

  function Insert(m: Member, ms: seq<Member>): seq<Member> {
    if ms == [] || Less(m.key, ms[0].key) then [m] + ms else [ms[0]] + Insert(m, ms[1..])
  }

  function Norm(j: Json): Json
    decreases j, 1
  {
    match j
    case Arr(items) => Arr(NormItems(items))
    case Obj(members) => Obj(NormMembers(members))
    case _ => j
  }

  function NormItems(items: seq<Json>): seq<Json>
    decreases items, 0
  {
    if items == [] then [] else [Norm(items[0])] + NormItems(items[1..])
  }

  function NormMembers(members: seq<Member>): seq<Member>
    decreases members, 0
  {
    if members == [] then [] else Insert(Member(members[0].key, Norm(members[0].value)), NormMembers(members[1..]))
  }

  function Canonical(j: Json): seq<Utf8.byte> {
    Utf8.Encode(Print(Norm(j), false))
  }

  // ---------- What a value means, whatever the order of its members ----------

  datatype Value =
    | NullValue
    | BoolValue(b: bool)
    | IntValue(n: int)
    | StrValue(s: string)
    | ListValue(items: seq<Value>)
    | DictValue(fields: map<string, Value>)

  function Meaning(j: Json): Value
    decreases j, 1
  {
    match j
    case Null => NullValue
    case Bool(b) => BoolValue(b)
    case Int(n) => IntValue(n)
    case Str(s) => StrValue(s)
    case Arr(items) => ListValue(ItemValues(items))
    case Obj(members) => DictValue(Fields(members))
  }

  function ItemValues(items: seq<Json>): seq<Value>
    decreases items, 0
  {
    if items == [] then [] else [Meaning(items[0])] + ItemValues(items[1..])
  }

  function Fields(members: seq<Member>): map<string, Value>
    decreases members, 0
  {
    if members == [] then map[] else Fields(members[1..])[members[0].key := Meaning(members[0].value)]
  }

  /** A dict has no key twice, at any level. */
  predicate WellFormed(j: Json)
    decreases j, 1
  {
    match j
    case Arr(items) => forall i | 0 <= i < |items| :: WellFormed(items[i])
    case Obj(members) => WellFormedMembers(members)
    case _ => true
  }

  predicate WellFormedMembers(members: seq<Member>)
    decreases members, 0
  {
    members != [] ==>
      && WellFormed(members[0].value)
      && WellFormedMembers(members[1..])
      && members[0].key !in Fields(members[1..])
  }

  predicate IsCanonical(j: Json)
    decreases j, 1
  {
    match j
    case Arr(items) => forall i | 0 <= i < |items| :: IsCanonical(items[i])
    case Obj(members) => CanonicalMembers(members)
    case _ => true
  }

  predicate CanonicalMembers(members: seq<Member>)
    decreases members, 0
  {
    members != [] ==>
      && IsCanonical(members[0].value)
      && CanonicalMembers(members[1..])
      && (|members| > 1 ==> Less(members[0].key, members[1].key))
  }

  // ---------- Sorting keeps the meaning and reaches a canonical form ----------

  /** The head of the result is the new member or the old head. */
  lemma InsertHead(m: Member, ms: seq<Member>)
    ensures Insert(m, ms) != []
    ensures Insert(m, ms)[0] == if ms == [] || Less(m.key, ms[0].key) then m else ms[0]
  {
  }

  lemma {:induction false} InsertKeeps(m: Member, ms: seq<Member>)
    requires CanonicalMembers(ms) && IsCanonical(m.value) && m.key !in Fields(ms)
    ensures CanonicalMembers(Insert(m, ms))
    ensures Fields(Insert(m, ms)) == Fields(ms)[m.key := Meaning(m.value)]
  {
    var out := Insert(m, ms);
    hide Meaning, IsCanonical, Less;
    if ms == [] || Less(m.key, ms[0].key) {
      assert out[1..] == ms;
    } else {
      LessIsTotal(m.key, ms[0].key);
      InsertKeeps(m, ms[1..]);
      InsertHead(m, ms[1..]);
      hide Insert;
      assert out == [ms[0]] + Insert(m, ms[1..]);
      assert out[1..] == Insert(m, ms[1..]);
    }
  }

  lemma {:induction false} NormKeeps(j: Json)
    requires WellFormed(j)
    ensures IsCanonical(Norm(j)) && Meaning(Norm(j)) == Meaning(j)
    decreases j, 1
  {
    match j
    case Arr(items) => NormItemsKeep(items);
    case Obj(members) => NormMembersKeep(members);
    case _ =>
  }

  lemma {:induction false} NormItemsKeep(items: seq<Json>)
    requires forall i | 0 <= i < |items| :: WellFormed(items[i])
    ensures forall i | 0 <= i < |NormItems(items)| :: IsCanonical(NormItems(items)[i])
    ensures ItemValues(NormItems(items)) == ItemValues(items)
    decreases items, 0
  {
    if items != [] {
      NormKeeps(items[0]);
      NormItemsKeep(items[1..]);
      assert NormItems(items)[1..] == NormItems(items[1..]);
    }
  }

  lemma {:induction false} NormMembersKeep(members: seq<Member>)
    requires WellFormedMembers(members)
    ensures CanonicalMembers(NormMembers(members)) && Fields(NormMembers(members)) == Fields(members)
    decreases members, 0
  {
    if members != [] {
      NormKeeps(members[0].value);
      NormMembersKeep(members[1..]);
      InsertKeeps(Member(members[0].key, Norm(members[0].value)), NormMembers(members[1..]));
    }
  }

  lemma {:induction false} CanonicalAscends(members: seq<Member>, i: nat, j: nat)
    requires CanonicalMembers(members) && i < j < |members|
    ensures Less(members[i].key, members[j].key)
  {
    if i > 0 {
      CanonicalAscends(members[1..], i - 1, j - 1);
    } else if j > 1 {
      CanonicalAscends(members[1..], 0, j - 1);
      LessIsTransitive(members[0].key, members[1].key, members[j].key);
    }
  }

  /** The keys of a written dict ascend. */
  lemma KeysAscend(members: seq<Member>, i: nat, j: nat)
    requires WellFormedMembers(members) && i < j < |NormMembers(members)|
    ensures exists k: nat :: DiffersAt(NormMembers(members)[i].key, NormMembers(members)[j].key, k)
  {
    NormMembersKeep(members);
    CanonicalAscends(NormMembers(members), i, j);
    LessIff(NormMembers(members)[i].key, NormMembers(members)[j].key);
  }

  // ---------- A meaning has one canonical form ----------

  /** The first key of a sorted list is below all the others. */
  lemma {:induction false} FirstIsLeast(members: seq<Member>, key: string)
    requires members != [] && CanonicalMembers(members) && key in Fields(members[1..])
    ensures Less(members[0].key, key)
  {
    if key != members[1].key {
      FirstIsLeast(members[1..], key);
      LessIsTransitive(members[0].key, members[1].key, key);
    }
  }

  lemma {:induction false} CanonicalIsUnique(a: Json, b: Json)
    requires IsCanonical(a) && IsCanonical(b) && Meaning(a) == Meaning(b)
    ensures a == b
    decreases a, 1
  {
    match a
    case Arr(items) => ItemsAreUnique(items, b.items);
    case Obj(members) => MembersAreUnique(members, b.members);
    case _ =>
  }

  lemma {:induction false} ItemsAreUnique(a: seq<Json>, b: seq<Json>)
    requires forall i | 0 <= i < |a| :: IsCanonical(a[i])
    requires forall i | 0 <= i < |b| :: IsCanonical(b[i])
    requires ItemValues(a) == ItemValues(b)
    ensures a == b
    decreases a, 0
  {
    if a != [] && b != [] {
      assert ItemValues(a)[0] == Meaning(a[0]) && ItemValues(b)[0] == Meaning(b[0]);
      assert ItemValues(a)[1..] == ItemValues(a[1..]) && ItemValues(b)[1..] == ItemValues(b[1..]);
      CanonicalIsUnique(a[0], b[0]);
      ItemsAreUnique(a[1..], b[1..]);
      assert a == [a[0]] + a[1..] && b == [b[0]] + b[1..];
    }
  }

  lemma {:induction false} MembersAreUnique(a: seq<Member>, b: seq<Member>)
    requires CanonicalMembers(a) && CanonicalMembers(b) && Fields(a) == Fields(b)
    ensures a == b
    decreases a, 0
  {
    NoFieldsNoMembers(a);
    NoFieldsNoMembers(b);
    if a != [] && b != [] {
      FirstKeysAgree(a, b);
      TailFields(a);
      TailFields(b);
      assert Fields(a)[a[0].key] == Fields(b)[b[0].key];
      CanonicalIsUnique(a[0].value, b[0].value);
      MembersAreUnique(a[1..], b[1..]);
      assert a == [a[0]] + a[1..] && b == [b[0]] + b[1..];
    }
  }

  lemma NoFieldsNoMembers(members: seq<Member>)
    ensures Fields(members) == map[] <==> members == []
  {
    if members != [] {
      assert members[0].key in Fields(members);
    }
  }

  lemma FirstKeysAgree(a: seq<Member>, b: seq<Member>)
    requires a != [] && b != [] && CanonicalMembers(a) && CanonicalMembers(b) && Fields(a) == Fields(b)
    ensures a[0].key == b[0].key
  {
    assert a[0].key in Fields(b) && b[0].key in Fields(a);
    if a[0].key != b[0].key {
      FirstIsLeast(a, b[0].key);
      FirstIsLeast(b, a[0].key);
      LessIsTotal(a[0].key, b[0].key);
    }
  }

  /** Dropping the first member drops exactly its key. */
  lemma TailFields(members: seq<Member>)
    requires members != [] && CanonicalMembers(members)
    ensures Fields(members[1..]) == Fields(members) - {members[0].key}
  {
    var tail := members[1..];
    if members[0].key in Fields(tail) {
      FirstIsLeast(members, members[0].key);
      LessIsTotal(members[0].key, members[0].key);
    }
  }

  // ---------- The main result ----------

  /** Two values get the same bytes exactly when they mean the same: the order of a dict's
      members never matters, and nothing else is ever lost. */
  lemma CanonicalIffSameMeaning(a: Json, b: Json)
    requires WellFormed(a) && WellFormed(b)
    ensures Canonical(a) == Canonical(b) <==> Meaning(a) == Meaning(b)
  {
    NormKeeps(a);
    NormKeeps(b);
    Utf8.EncodeInjective(Print(Norm(a), false), Print(Norm(b), false));
    PrintInjective(Norm(a), Norm(b), false);
    if Meaning(a) == Meaning(b) {
      CanonicalIsUnique(Norm(a), Norm(b));
    }
  }

  lemma {:induction false} FieldAt(members: seq<Member>, i: nat)
    requires WellFormedMembers(members) && i < |members|
    ensures members[i].key in Fields(members) && Fields(members)[members[i].key] == Meaning(members[i].value)
  {
    if i > 0 {
      FieldAt(members[1..], i - 1);
      assert members[1..][i - 1] == members[i];
    }
  }

  /** The same for any list of distinct keys, whatever their values. */
  lemma {:induction false} FieldAtDistinct(members: seq<Member>, i: nat)
    requires i < |members| && forall j, k | 0 <= j < k < |members| :: members[j].key != members[k].key
    ensures members[i].key in Fields(members) && Fields(members)[members[i].key] == Meaning(members[i].value)
  {
    if i > 0 {
      FieldAtDistinct(members[1..], i - 1);
      assert members[1..][i - 1] == members[i];
    }
  }

  lemma {:induction false} FieldFrom(members: seq<Member>, key: string) returns (i: nat)
    requires key in Fields(members)
    ensures i < |members| && members[i].key == key && Meaning(members[i].value) == Fields(members)[key]
  {
    if members[0].key == key {
      i := 0;
    } else {
      i := FieldFrom(members[1..], key);
      assert members[1..][i] == members[i + 1];
      i := i + 1;
    }
  }

  lemma {:induction false} DistinctIsWellFormed(members: seq<Member>)
    requires forall m | m in members :: WellFormed(m.value)
    requires forall i, j | 0 <= i < j < |members| :: members[i].key != members[j].key
    ensures WellFormedMembers(members)
  {
    if members != [] {
      DistinctIsWellFormed(members[1..]);
      if members[0].key in Fields(members[1..]) {
        var i := FieldFrom(members[1..], members[0].key);
        assert false;
      }
    }
  }

  /** The order in which a dict was filled is invisible in its bytes. */
  lemma OrderIsInvisible(a: seq<Member>, b: seq<Member>)
    requires WellFormedMembers(a) && WellFormedMembers(b) && multiset(a) == multiset(b)
    ensures Canonical(Obj(a)) == Canonical(Obj(b))
  {
    forall m: Member
      ensures m in a <==> m in b
    {
      assert m in multiset(a) <==> m in multiset(b);
    }
    FieldsWithin(a, b);
    FieldsWithin(b, a);
    assert Fields(a) == Fields(b);
    CanonicalIffSameMeaning(Obj(a), Obj(b));
  }

  lemma FieldsWithin(a: seq<Member>, b: seq<Member>)
    requires WellFormedMembers(a) && WellFormedMembers(b) && forall m | m in a :: m in b
    ensures forall key | key in Fields(a) :: key in Fields(b) && Fields(b)[key] == Fields(a)[key]
  {
    forall key | key in Fields(a)
      ensures key in Fields(b) && Fields(b)[key] == Fields(a)[key]
    {
      var i := FieldFrom(a, key);
      FieldAt(a, i);
      assert a[i] in b;
      var j :| 0 <= j < |b| && b[j] == a[i];
      FieldAt(b, j);
    }
  }

  /** The one sorted list with the same fields is the one that is written. */
  lemma SortsTo(members: seq<Member>, sorted: seq<Member>)
    requires WellFormedMembers(members) && CanonicalMembers(sorted) && Fields(members) == Fields(sorted)
    ensures NormMembers(members) == sorted
  {
    NormMembersKeep(members);
    MembersAreUnique(NormMembers(members), sorted);
  }

  lemma TwoMembersText(p: Member, q: Member)
    ensures Print(Obj([p, q]), false)
         == "{" + PrintString(p.key, false) + ":" + Print(p.value, false) + ","
            + PrintString(q.key, false) + ":" + Print(q.value, false) + "}"
  {
    hide PrintString;
    assert [p, q][1..] == [q];
    var last := PrintString(q.key, false) + ":" + Print(q.value, false) + "}";
    assert PrintMembers([q], false) == last;
    assert PrintMembers([p, q], false) == PrintString(p.key, false) + ":" + Print(p.value, false) + "," + last;
  }

  lemma LetterText(c: char)
    requires 'a' <= c <= 'z'
    ensures PrintString([c], false) == "\"" + [c] + "\""
  {
    assert [c][1..] == "";
    assert EscapeAll([c], false) == [c];
  }

  /** {"b": ys, "a": n} is written as {"a":n,"b":ys}, compact and in order. */
  lemma CompactAndSorted(n: int, ys: Json)
    ensures Print(Norm(Obj([Member("b", ys), Member("a", Int(n))])), false)
         == "{\"a\":" + PrintInt(n) + ",\"b\":" + Print(Norm(ys), false) + "}"
  {
    var p, q := Member("a", Int(n)), Member("b", Norm(ys));
    TwoSort(n, ys);
    TwoMembersText(p, q);
    LetterText('a');
    LetterText('b');
    assert Print(p.value, false) == PrintInt(n);
    hide *;
  }

  lemma TwoSort(n: int, ys: Json)
    ensures Norm(Obj([Member("b", ys), Member("a", Int(n))])) == Obj([Member("a", Int(n)), Member("b", Norm(ys))])
  {
    var p, q := Member("a", Int(n)), Member("b", Norm(ys));
    assert [Member("b", ys), Member("a", Int(n))][1..] == [Member("a", Int(n))];
    assert NormMembers([Member("a", Int(n))]) == [p];
    assert Insert(q, [p]) == [p] + Insert(q, []);
  }
}
