/** Key files as group -> key -> value maps, the flat view a reader of the settings has of them, and the
    merge and purge operations of src/usb_moded-config.c. */
module KeyStore {
  import opened Basics

  type Groups = map<string, map<string, string>>

  /** Settings as seen by lookups: empty groups are invisible. (Only ever finite, but never enumerated.) */
  type View = imap<(string, string), string>

  ghost function ViewOf(g: Groups): View {
    imap k: (string, string) | k.0 in g && k.1 in g[k.0] :: g[k.0][k.1]
  }

  function Find(v: View, grp: string, key: string): Option<string> {
    if (grp, key) in v then Some(v[(grp, key)]) else None
  }

  function Keys(g: Groups, grp: string): map<string, string> {
    if grp in g then g[grp] else map[]
  }

  function Lookup(g: Groups, grp: string, key: string): Option<string> {
    if key in Keys(g, grp) then Some(g[grp][key]) else None
  }

  function WithValue(g: Groups, grp: string, key: string, val: string): Groups {
    g[grp := Keys(g, grp)[key := val]]
  }

  function WithoutKey(g: Groups, grp: string, key: string): Groups {
    if grp in g then g[grp := g[grp] - {key}] else g
  }

  /** dest overridden by srce; groups of srce without keys are not created. */
  function Merged(dest: Groups, srce: Groups): Groups {
    map grp | grp in dest.Keys + srce.Keys && (grp in dest || srce[grp] != map[]) :: Keys(dest, grp) + Keys(srce, grp)
  }

  /** The entries of keys that are not also entries of base. */
  function Minus(keys: map<string, string>, base: map<string, string>): map<string, string> {
    map key | key in keys && !(key in base && base[key] == keys[key]) :: keys[key]
  }

  /** dest without the values it shares with srce. */
  function Purged(dest: Groups, srce: Groups): Groups {
    map grp | grp in dest :: Minus(dest[grp], Keys(srce, grp))
  }

  /** The entries of v that are not also entries of base. */
  ghost function Difference(v: View, base: View): View {
    imap k | k in v && !(k in base && base[k] == v[k]) :: v[k]
  }

  predicate Canonical(g: Groups) {
    forall grp :: grp in g ==> g[grp] != map[]
  }

  function WithoutEmpty(g: Groups): (r: Groups)
    ensures Canonical(r)
  {
    map grp | grp in g && g[grp] != map[] :: g[grp]
  }

  /** Views are compared entry by entry. */
  lemma SameView(g: Groups, v: View)
    requires forall grp, key :: Lookup(g, grp, key) == Find(v, grp, key)
    ensures ViewOf(g) == v
  {
    forall k: (string, string) ensures k in ViewOf(g) <==> k in v {
      assert Lookup(g, k.0, k.1) == Find(v, k.0, k.1);
    }
    forall k: (string, string) | k in ViewOf(g) ensures ViewOf(g)[k] == v[k] {
      assert Lookup(g, k.0, k.1) == Find(v, k.0, k.1);
    }
  }

  lemma LookupIsFind(g: Groups, grp: string, key: string)
    ensures Lookup(g, grp, key) == Find(ViewOf(g), grp, key)
  {
  }

  lemma ViewOfValue(g: Groups, grp: string, key: string, val: string)
    ensures ViewOf(WithValue(g, grp, key, val)) == ViewOf(g)[(grp, key) := val]
  {
    var h, v := WithValue(g, grp, key, val), ViewOf(g)[(grp, key) := val];
    forall e, c ensures Lookup(h, e, c) == Find(v, e, c) {
      LookupIsFind(g, e, c);
    }
    SameView(h, v);
  }

  lemma ViewOfRemoval(g: Groups, grp: string, key: string)
    ensures ViewOf(WithoutKey(g, grp, key)) == ViewOf(g) - {(grp, key)}
  {
    SameView(WithoutKey(g, grp, key), ViewOf(g) - {(grp, key)});
  }

  lemma ViewOfMerged(dest: Groups, srce: Groups)
    ensures ViewOf(Merged(dest, srce)) == ViewOf(dest) + ViewOf(srce)
  {
    var g, v := Merged(dest, srce), ViewOf(dest) + ViewOf(srce);
    forall grp, key ensures Lookup(g, grp, key) == Find(v, grp, key) {
      LookupIsFind(dest, grp, key);
      LookupIsFind(srce, grp, key);
      assert Lookup(g, grp, key) == if Lookup(srce, grp, key).Some? then Lookup(srce, grp, key) else Lookup(dest, grp, key);
    }
    SameView(g, v);
  }

  lemma ViewOfPurged(dest: Groups, srce: Groups)
    ensures ViewOf(Purged(dest, srce)) == Difference(ViewOf(dest), ViewOf(srce))
  {
    SameView(Purged(dest, srce), Difference(ViewOf(dest), ViewOf(srce)));
  }

  lemma ViewOfCanonical(g: Groups)
    ensures ViewOf(WithoutEmpty(g)) == ViewOf(g)
  {
    SameView(WithoutEmpty(g), ViewOf(g));
  }

  lemma CanonicalGroups(a: Groups, b: Groups)
    requires Canonical(a) && ViewOf(a) == ViewOf(b)
    ensures a.Keys <= b.Keys
  {
    forall grp | grp in a ensures grp in b {
      var key :| key in a[grp];
      assert (grp, key) in ViewOf(a);
    }
  }

  /** Key files without empty groups are determined by what they say. */
  lemma CanonicalByView(a: Groups, b: Groups)
    requires Canonical(a) && Canonical(b)
    requires ViewOf(a) == ViewOf(b)
    ensures a == b
  {
    CanonicalGroups(a, b);
    CanonicalGroups(b, a);
    forall grp | grp in a ensures a[grp] == b[grp] {
      forall key ensures key in a[grp] <==> key in b[grp] {
        assert (grp, key) in ViewOf(a) <==> (grp, key) in ViewOf(b);
      }
      forall key | key in a[grp] ensures a[grp][key] == b[grp][key] {
        assert ViewOf(a)[(grp, key)] == ViewOf(b)[(grp, key)];
      }
    }
  }

  /** What is left of a view after purging the base restores the view on top of the base... */
  lemma DifferenceRestores(v: View, base: View)
    requires base.Keys <= v.Keys
    ensures base + Difference(v, base) == v
  {
  }

  /** ...and is contained in everything else that does. */
  lemma DifferenceIsLeast(v: View, base: View, other: View)
    requires base + other == v
    ensures forall k :: k in Difference(v, base) ==> k in other && other[k] == Difference(v, base)[k]
  {
    forall k | k in Difference(v, base) ensures k in other && other[k] == v[k] {
      assert k in base + other;
      assert (base + other)[k] == v[k];
    }
  }

  /** A GKeyFile object. */
  class KeyFile {
    var groups: Groups

    constructor ()
      ensures groups == map[]
    {
      groups := map[];
    }

    method SetValue(grp: string, key: string, val: string)
      modifies this
      ensures groups == WithValue(old(groups), grp, key, val)
    {
      groups := groups[grp := (if grp in groups then groups[grp] else map[])[key := val]];
    }

    method RemoveKey(grp: string, key: string) returns (removed: bool)
      modifies this
      ensures groups == WithoutKey(old(groups), grp, key)
      ensures removed == Lookup(old(groups), grp, key).Some?
    {
      removed := grp in groups && key in groups[grp];
      if grp in groups {
        groups := groups[grp := groups[grp] - {key}];
      }
    }

    method RemoveGroup(grp: string)
      modifies this
      ensures groups == old(groups) - {grp}
    {
      groups := groups - {grp};
    }
  }

  method MergeKey(dest: KeyFile, srce: KeyFile, grp: string, key: string)
    modifies dest
    ensures dest.groups == match Lookup(old(srce.groups), grp, key)
                           case Some(val) => WithValue(old(dest.groups), grp, key, val)
                           case None => old(dest.groups)
  {
    var val := Lookup(srce.groups, grp, key);
    if val.Some? {
      dest.SetValue(grp, key, val.value);
    }
  }

  method MergeGroup(dest: KeyFile, srce: KeyFile, grp: string)
    requires dest != srce
    modifies dest
    ensures var keys := Keys(srce.groups, grp);
            dest.groups == if keys == map[] then old(dest.groups) else old(dest.groups)[grp := Keys(old(dest.groups), grp) + keys]
  {
    if grp !in srce.groups {
      return;
    }
    var todo := srce.groups[grp].Keys;
    ghost var done: map<string, string> := map[];
    while todo != {}
      invariant grp in srce.groups && todo <= srce.groups[grp].Keys
      invariant srce.groups == old(srce.groups)
      invariant done == srce.groups[grp] - todo
      invariant dest.groups == if done == map[] then old(dest.groups) else old(dest.groups)[grp := Keys(old(dest.groups), grp) + done]
      decreases todo
    {
      var key :| key in todo;
      assert Keys(dest.groups, grp) == Keys(old(dest.groups), grp) + done;
      MergeKey(dest, srce, grp, key);
      todo := todo - {key};
      assert key in srce.groups[grp] - todo;
      assert srce.groups[grp] - todo == done[key := srce.groups[grp][key]];
      done := srce.groups[grp] - todo;
      assert dest.groups[grp] == Keys(old(dest.groups), grp) + done;
    }
    assert done == srce.groups[grp];
  }

  method MergeData(dest: KeyFile, srce: KeyFile)
    requires dest != srce
    modifies dest
    ensures dest.groups == Merged(old(dest.groups), srce.groups)
  {
    var todo := srce.groups.Keys;
    while todo != {}
      invariant todo <= srce.groups.Keys && srce.groups == old(srce.groups)
      invariant forall g :: g in dest.groups <==> g in old(dest.groups) || (g in srce.groups && g !in todo && srce.groups[g] != map[])
      invariant forall g :: g in dest.groups ==>
                  dest.groups[g] == Keys(old(dest.groups), g) + if g in todo then map[] else Keys(srce.groups, g)
      decreases todo
    {
      var grp :| grp in todo;
      MergeGroup(dest, srce, grp);
      todo := todo - {grp};
    }
  }

  /** The inner loop of config_purge_data. */
  method PurgeGroup(dest: KeyFile, srce: KeyFile, grp: string)
    requires dest != srce && grp in srce.groups
    modifies dest
    ensures dest.groups == if grp in old(dest.groups) then old(dest.groups)[grp := Minus(old(dest.groups)[grp], srce.groups[grp])]
                           else old(dest.groups)
  {
    var todo := srce.groups[grp].Keys;
    assert grp in dest.groups ==> dest.groups[grp] == Minus(dest.groups[grp], srce.groups[grp] - todo);
    while todo != {}
      invariant grp in srce.groups && todo <= srce.groups[grp].Keys
      invariant srce.groups == old(srce.groups)
      invariant dest.groups.Keys == old(dest.groups).Keys
      invariant dest.groups == if grp in old(dest.groups)
                               then old(dest.groups)[grp := Minus(old(dest.groups)[grp], srce.groups[grp] - todo)]
                               else old(dest.groups)
      decreases todo
    {
      var key :| key in todo;
      var curVal := Lookup(dest.groups, grp, key);
      if curVal.Some? && curVal.value == srce.groups[grp][key] {
        var _ := dest.RemoveKey(grp, key);
      }
      todo := todo - {key};
      if grp in old(dest.groups) {
        assert dest.groups[grp] == Minus(old(dest.groups)[grp], srce.groups[grp] - todo);
      }
    }
    assert srce.groups[grp] - {} == srce.groups[grp];
  }

  method PurgeData(dest: KeyFile, srce: KeyFile)
    requires dest != srce
    modifies dest
    ensures dest.groups == Purged(old(dest.groups), srce.groups)
  {
    var todo := srce.groups.Keys;
    while todo != {}
      invariant todo <= srce.groups.Keys && srce.groups == old(srce.groups)
      invariant dest.groups.Keys == old(dest.groups).Keys
      invariant forall g :: g in dest.groups ==>
                  dest.groups[g] == Minus(old(dest.groups)[g], if g in todo then map[] else Keys(srce.groups, g))
      decreases todo
    {
      var grp :| grp in todo;
      PurgeGroup(dest, srce, grp);
      todo := todo - {grp};
      assert grp in old(dest.groups) ==> Minus(old(dest.groups)[grp], map[]) == old(dest.groups)[grp];
    }
  }

  method PurgeEmptyGroups(dest: KeyFile)
    modifies dest
    ensures dest.groups == WithoutEmpty(old(dest.groups))
  {
    var todo := dest.groups.Keys;
    while todo != {}
      invariant todo <= old(dest.groups).Keys
      invariant dest.groups == map grp | grp in old(dest.groups) && (grp in todo || old(dest.groups)[grp] != map[]) :: old(dest.groups)[grp]
      decreases todo
    {
      var grp :| grp in todo;
      if |dest.groups[grp]| == 0 {
        dest.RemoveGroup(grp);
      }
      todo := todo - {grp};
    }
  }
}
