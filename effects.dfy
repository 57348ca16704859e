/**
 * The sheet-side sorting of active effects into the three header categories
 * (module/helpers/effects.mjs, prepareActiveEffectCategories).
 */
module Effects {
  import opened Seqs

  /** An active effect as the sheet sees it: its identity and the two flags the sorting reads. */
  datatype Effect = Effect(id: string, disabled: bool, isTemporary: bool)

  /** The three sheet categories. */
  datatype Kind = Temporary | Passive | Inactive

  /** One header category: its type tag, its (already localised, opaque) title and its effects. */
  datatype Category = Category(kind: string, title: string, effects: seq<Effect>)

  datatype Categories = Categories(temporary: Category, passive: Category, inactive: Category)

  /** The localised header labels, supplied by the host's translation table. */
  datatype Labels = Labels(temporary: string, passive: string, inactive: string)

  /** The category an effect is sorted into: disabled wins over temporary. */
  function KindOf(e: Effect): (k: Kind)
    ensures k == Inactive <==> e.disabled
    ensures k == Temporary <==> !e.disabled && e.isTemporary
    ensures k == Passive <==> !e.disabled && !e.isTemporary
  {
    if e.disabled then Inactive
    else if e.isTemporary then Temporary
    else Passive
  }

  /** The membership test of category `k`, as a value that Filter can take. */
  function InKind(k: Kind): Effect -> bool
  {
    e => KindOf(e) == k
  }

  /** The effects of `s` that belong to category `k`, in input order. */
  function Select(s: seq<Effect>, k: Kind): seq<Effect>
  {
    Filter(s, InKind(k))
  }

  /**
   * Walks the effects once and appends each to the category it belongs to.
   * Each category holds exactly the input's effects of that kind, in input order.
   */
  method PrepareActiveEffectCategories(effects: seq<Effect>, labels: Labels) returns (c: Categories)
    ensures c.temporary == Category("temporary", labels.temporary, Select(effects, Temporary))
    ensures c.passive == Category("passive", labels.passive, Select(effects, Passive))
    ensures c.inactive == Category("inactive", labels.inactive, Select(effects, Inactive))
    ensures forall e :: e in c.inactive.effects ==> e.disabled
    ensures forall e :: e in c.temporary.effects ==> !e.disabled && e.isTemporary
    ensures forall e :: e in c.passive.effects ==> !e.disabled && !e.isTemporary
    ensures |c.temporary.effects| + |c.passive.effects| + |c.inactive.effects| == |effects|
  {
    var temporary: seq<Effect> := [];
    var passive: seq<Effect> := [];
    var inactive: seq<Effect> := [];
    for i := 0 to |effects|
      invariant temporary == Select(effects[..i], Temporary)
      invariant passive == Select(effects[..i], Passive)
      invariant inactive == Select(effects[..i], Inactive)
    {
      var e := effects[i];
      assert effects[..i + 1][..i] == effects[..i];
      if e.disabled {
        inactive := inactive + [e];
      } else if e.isTemporary {
        temporary := temporary + [e];
      } else {
        passive := passive + [e];
      }
    }
    assert effects[..|effects|] == effects;
    c := Categories(
      Category("temporary", labels.temporary, temporary),
      Category("passive", labels.passive, passive),
      Category("inactive", labels.inactive, inactive));
    PartitionLengths(effects);
    FilterMembers(effects, InKind(Temporary));
    FilterMembers(effects, InKind(Passive));
    FilterMembers(effects, InKind(Inactive));
  }

  /** Every effect lands in exactly one category: the three selections together are the input as a multiset. */
  lemma {:induction false} PartitionExact(s: seq<Effect>)
    ensures multiset(Select(s, Temporary)) + multiset(Select(s, Passive)) + multiset(Select(s, Inactive))
            == multiset(s)
    decreases |s|
  {
    if |s| > 0 {
      var init, last := s[..|s| - 1], s[|s| - 1];
      PartitionExact(init);
      assert s == init + [last];
      SelectSnoc(s, Temporary);
      SelectSnoc(s, Passive);
      SelectSnoc(s, Inactive);
    }
  }

  /** Hence the lengths of the three categories add up to the input's. */
  lemma PartitionLengths(s: seq<Effect>)
    ensures |Select(s, Temporary)| + |Select(s, Passive)| + |Select(s, Inactive)| == |s|
  {
    PartitionExact(s);
    assert |multiset(s)| == |s|;
  }

  /** The last effect of a list joins its own category and no other. */
  lemma SelectSnoc(s: seq<Effect>, k: Kind)
    requires |s| > 0
    ensures Select(s, k) == Select(s[..|s| - 1], k) + (if KindOf(s[|s| - 1]) == k then [s[|s| - 1]] else [])
  {
  }

  /** An effect of the input sits in exactly the category KindOf names, and in no other. */
  lemma SortedIntoOne(s: seq<Effect>, e: Effect)
    requires e in s
    ensures e in Select(s, KindOf(e))
    ensures forall k :: k != KindOf(e) ==> e !in Select(s, k)
  {
    forall k ensures e in Select(s, k) <==> k == KindOf(e) {
      FilterMembers(s, InKind(k));
    }
  }

  /**
   * Categories keep the input's relative order: sorting a list made of two parts gives,
   * in every category, the first part's effects followed by the second part's.
   */
  lemma OrderKept(a: seq<Effect>, b: seq<Effect>, k: Kind)
    ensures Select(a + b, k) == Select(a, k) + Select(b, k)
  {
    FilterConcat(a, b, InKind(k));
  }
}
