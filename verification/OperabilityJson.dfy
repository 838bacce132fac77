/** Values that the release gate reads and compares. */
module OperabilityJson {
  import opened Text

  datatype Json =
    | Null
    | Bool(b: bool)
    | Num(n: int)
    | Text(s: string)
    | Arr(items: seq<Json>)
    | Obj(members: map<string, Json>)

  function Get(members: map<string, Json>, key: string): Json {
    if key in members then members[key] else Null
  }

  function NonEmpty(j: Json): string {
    if j.Text? then Strip(j.s) else ""
  }

  predicate IsNumber(j: Json) { j.Num? || j.Bool? }

  function AsNumber(j: Json): int
    requires IsNumber(j)
  {
    match j
    case Num(n) => n
    case Bool(b) => if b then 1 else 0
  }

  /** Equality of values: a truth value equals its number, at any depth. */
  predicate Same(a: Json, b: Json)
    decreases a
  {
    if IsNumber(a) && IsNumber(b) then AsNumber(a) == AsNumber(b)
    else if a.Arr? && b.Arr? then
      |a.items| == |b.items| && forall i :: 0 <= i < |a.items| ==> Same(a.items[i], b.items[i])
    else if a.Obj? && b.Obj? then
      a.members.Keys == b.members.Keys && forall k :: k in a.members ==> Same(a.members[k], b.members[k])
    else a == b
  }

  lemma {:induction false} SameIsReflexive(a: Json)
    ensures Same(a, a)
  {
    if a.Arr? {
      forall i | 0 <= i < |a.items|
        ensures Same(a.items[i], a.items[i])
      {
        SameIsReflexive(a.items[i]);
      }
    } else if a.Obj? {
      forall k | k in a.members
        ensures Same(a.members[k], a.members[k])
      {
        SameIsReflexive(a.members[k]);
      }
    }
  }

  /** Two values equal to a third are equal to each other. */
  lemma {:induction false} SameThird(a: Json, b: Json, c: Json)
    requires Same(a, b) && Same(a, c)
    ensures Same(b, c)
    decreases a
  {
    if a.Arr? {
      forall i | 0 <= i < |a.items|
        ensures Same(b.items[i], c.items[i])
      {
        SameThird(a.items[i], b.items[i], c.items[i]);
      }
    } else if a.Obj? {
      forall k | k in a.members
        ensures Same(b.members[k], c.members[k])
      {
        SameThird(a.members[k], b.members[k], c.members[k]);
      }
    }
  }

  lemma SameIsSymmetric(a: Json, b: Json)
    requires Same(a, b)
    ensures Same(b, a)
  {
    SameIsReflexive(a);
    SameThird(a, b, a);
  }

  // ------------------------------------------------------------------ lists of texts

  /** The texts of a list that are not blank, without the white space around them. */
  function Texts(j: Json): set<string> {
    if j.Arr? then set i | 0 <= i < |j.items| && NonEmpty(j.items[i]) != "" :: NonEmpty(j.items[i]) else {}
  }

  /** The texts of a list that are not empty, as they are. */
  function RawTexts(j: Json): set<string> {
    if j.Arr? then set i | 0 <= i < |j.items| && j.items[i].Text? && j.items[i].s != "" :: j.items[i].s else {}
  }
}
