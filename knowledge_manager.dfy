/** The risk dictionary helpers of the knowledge editor: an item's score
    weight is its likelihood level times its consequence level, looked up in
    the risk dictionary; levels are coloured by value; and each dictionary
    view lists one kind of level in ascending order of value. */
module KnowledgeManager {

  import opened Common

  /** An entry of the risk dictionary: a likelihood or consequence level. */
  datatype RiskEntry = RiskEntry(id: string, kind: string, levelName: string, levelValue: int)

  /** The first entry with the given id. */
  function FindEntry(dict: seq<RiskEntry>, id: string): (r: Option<RiskEntry>)
    ensures r.Some? ==> exists k :: 0 <= k < |dict| && dict[k] == r.value && dict[k].id == id
                                    && forall j :: 0 <= j < k ==> dict[j].id != id
    ensures r.None? <==> forall k :: 0 <= k < |dict| ==> dict[k].id != id
  {
    if dict == [] then None
    else if dict[0].id == id then Some(dict[0])
    else
      var rest := FindEntry(dict[1..], id);
      assert rest.Some? ==> exists k :: 0 <= k < |dict| && dict[k] == rest.value && dict[k].id == id
                                        && forall j :: 0 <= j < k ==> dict[j].id != id by {
        if rest.Some? {
          var k :| 0 <= k < |dict[1..]| && dict[1..][k] == rest.value && dict[1..][k].id == id
                   && forall j :: 0 <= j < k ==> dict[1..][j].id != id;
          assert dict[k + 1] == rest.value;
          assert forall j :: 0 < j < k + 1 ==> dict[j].id == dict[1..][j - 1].id;
        }
      }
      assert rest.None? ==> forall k :: 0 <= k < |dict| ==> dict[k].id != id by {
        if rest.None? {
          forall k | 0 < k < |dict| ensures dict[k].id != id {
            assert dict[k] == dict[1..][k - 1];
          }
        }
      }
      rest
  }

  /** The value of level `id`, or 0 for an unknown id (a falsy value is 0
      as well). */
  function LevelValue(dict: seq<RiskEntry>, id: string): (v: int)
    ensures (forall k :: 0 <= k < |dict| ==> dict[k].id != id) ==> v == 0
    ensures forall k :: 0 <= k < |dict| && dict[k].id == id && (forall j :: 0 <= j < k ==> dict[j].id != id)
              ==> v == dict[k].levelValue
  {
    match FindEntry(dict, id)
    case Some(e) => OrDefault(e.levelValue, 0)
    case None => 0
  }

  /** An item's score weight from its likelihood and consequence levels. */
  function CalculateWeight(dict: seq<RiskEntry>, likelihood: string, consequence: string): (w: int)
    ensures (forall k :: 0 <= k < |dict| ==> dict[k].id != likelihood) ==> w == 0
    ensures (forall k :: 0 <= k < |dict| ==> dict[k].id != consequence) ==> w == 0
    ensures forall a, b :: 0 <= a < |dict| && 0 <= b < |dict|
              && dict[a].id == likelihood && (forall j :: 0 <= j < a ==> dict[j].id != likelihood)
              && dict[b].id == consequence && (forall j :: 0 <= j < b ==> dict[j].id != consequence)
              ==> w == dict[a].levelValue * dict[b].levelValue
  {
    LevelValue(dict, likelihood) * LevelValue(dict, consequence)
  }

  /** The weight does not depend on which level is called the likelihood. */
  lemma CalculateWeightSymmetric(dict: seq<RiskEntry>, a: string, b: string)
    ensures CalculateWeight(dict, a, b) == CalculateWeight(dict, b, a)
  {
  }

  // ---------------------------------------------------------------------
  // Level colours

  datatype LevelColor = Blue | Emerald | Amber | Orange | Red

  /** The colour of a level value: cut points at 1, 2, 3 and 4, anything
      above 4 is red. */
  function LevelColorOf(v: int): (c: LevelColor)
    ensures c == Blue <==> v <= 1
    ensures c == Emerald <==> 1 < v <= 2
    ensures c == Amber <==> 2 < v <= 3
    ensures c == Orange <==> 3 < v <= 4
    ensures c == Red <==> 4 < v
  {
    if v <= 1 then Blue
    else if v <= 2 then Emerald
    else if v <= 3 then Amber
    else if v <= 4 then Orange
    else Red
  }

  function Severity(c: LevelColor): nat
  {
    match c
    case Blue => 0
    case Emerald => 1
    case Amber => 2
    case Orange => 3
    case Red => 4
  }

  /** A higher value never gets a milder colour. */
  lemma LevelColorMonotone(a: int, b: int)
    requires a <= b
    ensures Severity(LevelColorOf(a)) <= Severity(LevelColorOf(b))
  {
  }

  // ---------------------------------------------------------------------
  // The dictionary views

  function OfKind(kind: string): RiskEntry -> bool
  {
    (e: RiskEntry) => e.kind == kind
  }

  function ValueOf(e: RiskEntry): int
  {
    e.levelValue
  }

  /** One kind of level, in ascending order of value. */
  function RiskView(dict: seq<RiskEntry>, kind: string): (r: seq<RiskEntry>)
    ensures SortedBy(r, ValueOf)
    ensures multiset(r) == multiset(Filter(dict, OfKind(kind)))
    ensures forall i :: 0 <= i < |r| ==> r[i].kind == kind && r[i] in dict
    ensures forall k :: 0 <= k < |dict| && dict[k].kind == kind ==> dict[k] in r
  {
    SortedSelection(dict, OfKind(kind), ValueOf);
    SortBy(Filter(dict, OfKind(kind)), ValueOf)
  }

  function HasValue(v: int): RiskEntry -> bool
  {
    (e: RiskEntry) => e.levelValue == v
  }

  /** Levels of equal value keep their dictionary order in a view. */
  lemma RiskViewStable(dict: seq<RiskEntry>, kind: string, v: int)
    ensures Filter(RiskView(dict, kind), HasValue(v)) == Filter(Filter(dict, OfKind(kind)), HasValue(v))
  {
    SortByStable(Filter(dict, OfKind(kind)), ValueOf, v, HasValue(v));
  }

  // ---------------------------------------------------------------------
  // The item form

  /** The knowledge item being edited. */
  datatype ItemForm = ItemForm(id: string, title: string, content: string, scoreWeight: int,
                               likelihoodLevel: string, consequenceLevel: string,
                               standardCode: string, tags: seq<string>)

  /** The form's weight is the one its two levels give. */
  predicate WeightConsistent(dict: seq<RiskEntry>, f: ItemForm)
  {
    f.scoreWeight == CalculateWeight(dict, f.likelihoodLevel, f.consequenceLevel)
  }

  /** Picking a likelihood level recomputes the weight with the current
      consequence level; nothing else changes. */
  function OnLikelihoodChange(dict: seq<RiskEntry>, f: ItemForm, level: string): (r: ItemForm)
    ensures WeightConsistent(dict, r)
    ensures r.likelihoodLevel == level
    ensures r == f.(likelihoodLevel := level, scoreWeight := r.scoreWeight)
  {
    f.(likelihoodLevel := level, scoreWeight := CalculateWeight(dict, level, f.consequenceLevel))
  }

  /** Picking a consequence level recomputes the weight with the current
      likelihood level; nothing else changes. */
  function OnConsequenceChange(dict: seq<RiskEntry>, f: ItemForm, level: string): (r: ItemForm)
    ensures WeightConsistent(dict, r)
    ensures r.consequenceLevel == level
    ensures r == f.(consequenceLevel := level, scoreWeight := r.scoreWeight)
  {
    f.(consequenceLevel := level, scoreWeight := CalculateWeight(dict, f.likelihoodLevel, level))
  }

  /** Picking the two levels in either order gives the same form. */
  lemma LevelChangesCommute(dict: seq<RiskEntry>, f: ItemForm, l: string, c: string)
    ensures OnConsequenceChange(dict, OnLikelihoodChange(dict, f, l), c)
            == OnLikelihoodChange(dict, OnConsequenceChange(dict, f, c), l)
  {
  }
}
