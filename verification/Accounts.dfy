/** The account registry and the relation two detectors build on. */
module Accounts {
  import opened Options

  datatype Entity = Entity(accountId: string, beneficialOwnerId: string, entityType: string, linkedAccountIds: seq<string>)

  type Entities = map<string, Entity>

  predicate SameBeneficialOwner(entities: Entities, a: string, b: string) {
    && a in entities && b in entities
    && entities[a].beneficialOwnerId != "" && entities[b].beneficialOwnerId != ""
    && entities[a].beneficialOwnerId == entities[b].beneficialOwnerId
  }

  predicate Names(entities: Entities, a: string, target: string) {
    a in entities && target in entities[a].linkedAccountIds
  }

  predicate AreLinked(entities: Entities, a: string, b: string) {
    Names(entities, a, b) || Names(entities, b, a)
  }

  predicate IsRelated(entities: Entities, a: string, b: string) {
    a == b || SameBeneficialOwner(entities, a, b) || AreLinked(entities, a, b)
  }

  /** The relation is symmetric even where only one side declares the link. */
  lemma RelatedSymmetric(entities: Entities, a: string, b: string)
    ensures IsRelated(entities, a, b) <==> IsRelated(entities, b, a)
  {
  }

  /** It is not transitive, so groups of related accounts have to be computed by closure. */
  lemma RelatedNotTransitive()
    ensures exists entities: Entities, a: string, b: string, c: string ::
              IsRelated(entities, a, b) && IsRelated(entities, b, c) && !IsRelated(entities, a, c)
  {
    var entities := map["b" := Entity("b", "", "client", ["a", "c"])];
    assert Names(entities, "b", "a") && Names(entities, "b", "c");
    assert IsRelated(entities, "a", "b") && IsRelated(entities, "b", "c") && !IsRelated(entities, "a", "c");
  }

  /** What a lookup of `id` finds. */
  function Find(entities: Entities, id: string): Option<Entity> {
    if id in entities then Some(entities[id]) else None
  }

  /** `found` is the last of the entities given for `id`, or nothing if none was given. */
  ghost predicate IsLatest(added: seq<Entity>, id: string, found: Option<Entity>) {
    match found
    case None => forall e :: e in added ==> e.accountId != id
    case Some(entity) =>
      exists i :: 0 <= i < |added| && added[i] == entity && entity.accountId == id
               && forall j :: i < j < |added| ==> added[j].accountId != id
  }

  /** No two entities can both be the latest. */
  lemma LatestIsUnique(added: seq<Entity>, id: string, found: Option<Entity>, other: Option<Entity>)
    requires IsLatest(added, id, found) && IsLatest(added, id, other)
    ensures found == other
  {
    if found.Some? && other.Some? {
      var i :| 0 <= i < |added| && added[i] == found.value && found.value.accountId == id
            && forall j :: i < j < |added| ==> added[j].accountId != id;
      var k :| 0 <= k < |added| && added[k] == other.value && other.value.accountId == id
            && forall j :: k < j < |added| ==> added[j].accountId != id;
      assert i == k;
    }
  }

  /** The account is registered, to that owner. */
  predicate OwnedBy(entities: Entities, a: string, owner: string) {
    match Find(entities, a)
    case Some(e) => e.beneficialOwnerId == owner
    case None => false
  }

  /** The account is registered with a link to the other. */
  predicate Declares(entities: Entities, a: string, b: string) {
    match Find(entities, a)
    case Some(e) => exists k :: 0 <= k < |e.linkedAccountIds| && e.linkedAccountIds[k] == b
    case None => false
  }

  /**
   Two accounts are related if and only if they are one, or both registered to the same known owner, or
   one of them declares a link to the other. An unknown owner relates nobody.
   */
  lemma RelatedIff(entities: Entities, a: string, b: string)
    ensures IsRelated(entities, a, b) <==>
            || a == b
            || (exists owner :: owner != "" && OwnedBy(entities, a, owner) && OwnedBy(entities, b, owner))
            || Declares(entities, a, b) || Declares(entities, b, a)
  {
    if SameBeneficialOwner(entities, a, b) {
      assert OwnedBy(entities, a, entities[a].beneficialOwnerId);
    }
  }

  class AccountRegistry {
    var entities: Entities

    // Everything that was ever added, in order.
    ghost var added: seq<Entity>

    ghost predicate Valid()
      reads this
    {
      forall id :: IsLatest(added, id, Find(entities, id))
    }

    constructor ()
      ensures Valid() && added == []
    {
      entities := map[];
      added := [];
    }

    /**
     Lookups of the account find the new entity, lookups of other accounts find what they found before,
     and no relation between two other accounts changes.
     */
    method Add(entity: Entity)
      requires Valid()
      modifies this
      ensures Valid() && added == old(added) + [entity]
      ensures Find(entities, entity.accountId) == Some(entity)
      ensures forall id :: id != entity.accountId ==> Find(entities, id) == old(Find(entities, id))
      ensures forall a, b :: a != entity.accountId && b != entity.accountId ==>
                (IsRelated(entities, a, b) <==> old(IsRelated(entities, a, b)))
    {
      ghost var before := entities;
      entities := entities[entity.accountId := entity];
      added := added + [entity];
      forall id
        ensures IsLatest(added, id, Find(entities, id))
      {
        assert IsLatest(old(added), id, Find(before, id));
        LatestAfter(old(added), entity, id, Find(before, id));
      }
    }

    /** Whatever was added, a lookup finds the last entity given for the account. */
    method Lookup(id: string) returns (found: Option<Entity>)
      requires Valid()
      ensures found.None? <==> forall e :: e in added ==> e.accountId != id
      ensures forall other :: IsLatest(added, id, other) <==> other == found
    {
      assert IsLatest(added, id, Find(entities, id));
      found := if id in entities then Some(entities[id]) else None;
      forall other | IsLatest(added, id, other)
        ensures other == found
      {
        LatestIsUnique(added, id, found, other);
      }
    }
  }

  lemma LatestAfter(added: seq<Entity>, entity: Entity, id: string, found: Option<Entity>)
    requires IsLatest(added, id, found)
    ensures IsLatest(added + [entity], id, if entity.accountId == id then Some(entity) else found)
  {
    var more := added + [entity];
    if entity.accountId == id {
      assert more[|added|] == entity;
    } else if found.Some? {
      var i :| 0 <= i < |added| && added[i] == found.value && found.value.accountId == id
            && forall j :: i < j < |added| ==> added[j].accountId != id;
      assert more[i] == found.value;
    }
  }
}
