/** Who may call what (runtime/agent_meta.c, runtime/action_registry.c and the refusals of
    runtime/action_runner.c). An agent's configured actions are stored twice, as an ordered
    list of runtime ids and as a 64-bit mask; the catalog is rendered from the list, the id
    list and the refusals use the mask. */
module Allowlist {
  import opened Wrappers
  import opened Bits

  datatype Def = Def(id: string, disabled: bool)

  /** The registry cap, which is also the width of the mask; as a list entry it stands for
      all_actions. */
  const CAP: nat := 64

  function FindDef(reg: seq<Def>, id: string): (i: nat)
    ensures i <= |reg|
    ensures i < |reg| ==> reg[i].id == id
    ensures forall j :: 0 <= j < i ==> reg[j].id != id
  {
    if reg == [] then 0 else if reg[0].id == id then 0 else 1 + FindDef(reg[1..], id)
  }

  /** Runtime ids are positions: ids are distinct and there are at most CAP of them. */
  ghost predicate ValidRegistry(reg: seq<Def>) {
    |reg| <= CAP && forall i, j :: 0 <= i < j < |reg| ==> reg[i].id != reg[j].id
  }

  /** Registers the manifests in scan order; a duplicate id or a full registry refuses. */
  method LoadRegistry(manifests: seq<Def>) returns (reg: Option<seq<Def>>)
    ensures reg == if ValidRegistry(manifests) then Some(manifests) else None
  {
    var defs: seq<Def> := [];
    var i := 0;
    while i < |manifests|
      invariant 0 <= i <= |manifests| && defs == manifests[..i] && ValidRegistry(defs)
    {
      var prior := 0;
      while prior < |defs| && defs[prior].id != manifests[i].id
        invariant 0 <= prior <= |defs|
        invariant forall j :: 0 <= j < prior ==> defs[j].id != manifests[i].id
      {
        prior := prior + 1;
      }
      if prior < |defs| {
        assert manifests[prior].id == manifests[i].id;
        return None;
      }
      if |defs| >= CAP { return None; }
      defs := defs + [manifests[i]];
      i := i + 1;
    }
    assert manifests[..|manifests|] == manifests;
    reg := Some(defs);
  }

  // ----- reading an allowlist -----

  /** One entry of an agent's actions array. */
  datatype Entry = AllActions | Named(id: string) | Malformed

  /** hasList is false for agents that may call everything. */
  datatype Meta = Meta(hasList: bool, ids: seq<nat>, mask: nat)

  function EntryId(reg: seq<Def>, e: Entry): nat {
    match e
    case AllActions => CAP
    case Named(id) => FindDef(reg, id)
    case Malformed => |reg|
  }

  predicate Known(reg: seq<Def>, e: Entry) {
    e.AllActions? || (e.Named? && FindDef(reg, e.id) < |reg|)
  }

  /** Every entry names something, and none is repeated. */
  ghost predicate Acceptable(reg: seq<Def>, entries: seq<Entry>) {
    && |entries| <= CAP
    && (forall i :: 0 <= i < |entries| ==> Known(reg, entries[i]))
    && (forall i, j :: 0 <= i < j < |entries| ==> EntryId(reg, entries[i]) != EntryId(reg, entries[j]))
  }

  function AllMask(count: nat): nat {
    if count == CAP then Pow2(64) - 1 else Pow2(count) - 1
  }

  /** The list and the mask say the same: bit j is set exactly when j or all_actions is listed. */
  ghost predicate Agree(m: Meta, reg: seq<Def>) {
    && m.mask < Pow2(64)
    && (forall k :: 0 <= k < |m.ids| ==> m.ids[k] < |reg| || m.ids[k] == CAP)
    && forall j: nat :: j < |reg| ==> (Test(m.mask, j) <==> j in m.ids || CAP in m.ids)
  }

  lemma AgreeAdds(m: Meta, reg: seq<Def>, id: nat, bits: nat)
    requires |reg| <= CAP && Agree(m, reg) && (id < |reg| || id == CAP)
    requires bits == if id == CAP then AllMask(|reg|) else Pow2(id)
    ensures Agree(Meta(m.hasList, m.ids + [id], Or(m.mask, bits)), reg)
  {
    hide Pow2, Or, Test;
    var t := Meta(m.hasList, m.ids + [id], Or(m.mask, bits));
    if id == CAP {
      Pow2Monotone(|reg|, 64);
    } else {
      Pow2Monotone(id, 64);
    }
    OrBound(m.mask, bits, 64);
    forall j: nat | j < |reg| ensures Test(t.mask, j) <==> j in t.ids || CAP in t.ids {
      TestOr(m.mask, bits, j);
      if id == CAP { TestLowBits(|reg|, j); } else { TestPow2(id, j); }
    }
  }

  /** The list and the mask are built in one loop. */
  method ReadAllowlist(reg: seq<Def>, entries: seq<Entry>) returns (meta: Option<Meta>)
    requires ValidRegistry(reg)
    ensures meta.Some? <==> Acceptable(reg, entries)
    ensures meta.Some? ==> meta.value.hasList && Agree(meta.value, reg)
                           && |meta.value.ids| == |entries|
                           && forall k :: 0 <= k < |entries| ==> meta.value.ids[k] == EntryId(reg, entries[k])
  {
    hide Test, Or, Pow2;
    if |entries| > CAP { return None; }
    var ids: seq<nat>, mask, sawAll := [], 0, false;
    var i := 0;
    forall j: nat | j < |reg| ensures !Test(0, j) { TestZero(j); }
    assert Agree(Meta(true, ids, mask), reg);
    hide Agree, AllMask;
    while i < |entries|
      invariant 0 <= i <= |entries| && |ids| == i
      invariant forall k :: 0 <= k < i ==> Known(reg, entries[k]) && ids[k] == EntryId(reg, entries[k])
      invariant forall k, l :: 0 <= k < l < i ==> ids[k] != ids[l]
      invariant sawAll <==> CAP in ids
      invariant Agree(Meta(true, ids, mask), reg)
    {
      if entries[i].Malformed? { return None; }
      if entries[i].AllActions? {
        if sawAll {
          assert exists k :: 0 <= k < i && EntryId(reg, entries[k]) == EntryId(reg, entries[i]);
          return None;
        }
        AgreeAdds(Meta(true, ids, mask), reg, CAP, AllMask(|reg|));
        sawAll, mask := true, Or(mask, AllMask(|reg|));
        ids := ids + [CAP];
      } else {
        var id := FindDef(reg, entries[i].id);
        if id == |reg| { return None; }
        if id in ids {
          assert exists k :: 0 <= k < i && EntryId(reg, entries[k]) == EntryId(reg, entries[i]);
          return None;
        }
        AgreeAdds(Meta(true, ids, mask), reg, id, Pow2(id));
        mask := Or(mask, Pow2(id));
        ids := ids + [id];
      }
      i := i + 1;
    }
    meta := Some(Meta(true, ids, mask));
  }

  /** Without an actions array a model-backed agent gets the empty list, any other agent none. */
  function Unlisted(llm: bool): Meta {
    Meta(llm, [], 0)
  }

  lemma UnlistedAgrees(llm: bool, reg: seq<Def>)
    ensures Agree(Unlisted(llm), reg)
  {
    forall j: nat ensures !Test(0, j) { TestZero(j); }
  }

  /** An agent without a list may call every enabled action, or none if it is model-backed. */
  lemma UnlistedRefusal(reg: seq<Def>, llm: bool, id: string)
    requires ValidRegistry(reg)
    ensures Refused(reg, Some(Unlisted(llm)), id) == NotRefused <==>
            !llm && exists i :: 0 <= i < |reg| && reg[i].id == id && !reg[i].disabled
  {
    var i := FindDef(reg, id);
    if i < |reg| { TestZero(i); AndPow2(0, i); }
  }

  // ----- the three views -----

  predicate Allows(m: Meta, id: nat) {
    id < CAP && (!m.hasList || And(m.mask, Pow2(id)) != 0)
  }

  /** The runner's first three refusals, for a caller other than the action_cli transport. */
  datatype Refusal = Unknown | ForceDisabled | NotAllowed | NotRefused

  function Refused(reg: seq<Def>, meta: Option<Meta>, id: string): Refusal {
    var i := FindDef(reg, id);
    if i == |reg| then Unknown
    else if reg[i].disabled then ForceDisabled
    else if meta.None? || !Allows(meta.value, i) then NotAllowed
    else NotRefused
  }

  ghost predicate Shows(list: seq<nat>, reg: seq<Def>, id: string) {
    exists k :: 0 <= k < |list| && list[k] < |reg| && reg[list[k]].id == id
  }

  predicate Listed(reg: seq<Def>, m: Meta, j: nat) {
    j < |reg| && !reg[j].disabled && (!m.hasList || j in m.ids || CAP in m.ids)
  }

  /** Enabled positions below n, in registry order. */
  function EnabledBelow(reg: seq<Def>, n: nat): seq<nat>
    requires n <= |reg|
  {
    if n == 0 then [] else EnabledBelow(reg, n - 1) + (if reg[n - 1].disabled then [] else [n - 1])
  }

  /** The configured order; all_actions expands in place and repeats are not removed. */
  function Catalog(reg: seq<Def>, ids: seq<nat>): seq<nat> {
    if ids == [] then []
    else
      var id := ids[|ids| - 1];
      Catalog(reg, ids[..|ids| - 1]) +
      (if id >= |reg| then EnabledBelow(reg, |reg|) else if reg[id].disabled then [] else [id])
  }

  lemma {:induction false} EnabledMember(reg: seq<Def>, n: nat, j: nat)
    requires n <= |reg|
    ensures j in EnabledBelow(reg, n) <==> j < n && !reg[j].disabled
  {
    if n > 0 { EnabledMember(reg, n - 1, j); }
  }

  lemma {:induction false} CatalogMember(reg: seq<Def>, ids: seq<nat>, j: nat)
    requires |reg| <= CAP && forall k :: 0 <= k < |ids| ==> ids[k] < |reg| || ids[k] == CAP
    ensures j in Catalog(reg, ids) <==> j < |reg| && !reg[j].disabled && (j in ids || CAP in ids)
  {
    hide EnabledBelow;
    if ids != [] {
      var front, id := ids[..|ids| - 1], ids[|ids| - 1];
      assert ids == front + [id];
      CatalogMember(reg, front, j);
      EnabledMember(reg, |reg|, j);
    }
  }

  /** Positions rendered from the configured list, all_actions expanding in place. */
  method RenderAvailable(reg: seq<Def>, meta: Meta) returns (list: seq<nat>)
    requires ValidRegistry(reg) && Agree(meta, reg)
    ensures list == if meta.hasList then Catalog(reg, meta.ids) else EnabledBelow(reg, |reg|)
    ensures forall j: nat :: j in list <==> Listed(reg, meta, j)
  {
    hide Test, Pow2, EnabledBelow;
    list := [];
    if meta.hasList {
      var i := 0;
      while i < |meta.ids|
        invariant 0 <= i <= |meta.ids|
        invariant list == Catalog(reg, meta.ids[..i])
      {
        var id := meta.ids[i];
        assert meta.ids[..i + 1] == meta.ids[..i] + [id] && meta.ids[..i + 1][..i] == meta.ids[..i];
        if id == CAP {
          var enabled := Enabled(reg);
          list := list + enabled;
        } else if !reg[id].disabled {
          list := list + [id];
        }
        i := i + 1;
      }
      assert meta.ids[..|meta.ids|] == meta.ids;
      forall j: nat ensures j in list <==> Listed(reg, meta, j) { CatalogMember(reg, meta.ids, j); }
    } else {
      list := Enabled(reg);
      forall j: nat ensures j in list <==> Listed(reg, meta, j) { EnabledMember(reg, |reg|, j); }
    }
  }

  method Enabled(reg: seq<Def>) returns (list: seq<nat>)
    ensures list == EnabledBelow(reg, |reg|)
  {
    list := [];
    var i := 0;
    while i < |reg|
      invariant 0 <= i <= |reg|
      invariant list == EnabledBelow(reg, i)
    {
      if !reg[i].disabled { list := list + [i]; }
      i := i + 1;
    }
  }

  /** Positions rendered from the mask. */
  method RenderAllowedIds(reg: seq<Def>, meta: Meta) returns (list: seq<nat>)
    ensures forall j: nat :: j in list <==> j < |reg| && !reg[j].disabled && Allows(meta, j)
  {
    list := [];
    var i := 0;
    while i < |reg|
      invariant 0 <= i <= |reg|
      invariant forall j: nat :: j in list <==> j < i && !reg[j].disabled && Allows(meta, j)
    {
      if !reg[i].disabled && Allows(meta, i) { list := list + [i]; }
      i := i + 1;
    }
  }

  lemma AllowsByList(reg: seq<Def>, m: Meta, j: nat)
    requires ValidRegistry(reg) && Agree(m, reg) && j < |reg|
    ensures Allows(m, j) <==> !m.hasList || j in m.ids || CAP in m.ids
  {
    AndPow2(m.mask, j);
  }

  /** For every registry and every agent whose list and mask agree: the catalog rendered
      from the list, the ids rendered from the mask, and the calls the runner does not refuse
      are the same actions. */
  lemma ThreeViewsAgree(reg: seq<Def>, m: Meta, catalog: seq<nat>, ids: seq<nat>, id: string)
    requires ValidRegistry(reg) && Agree(m, reg)
    requires forall j: nat :: j in catalog <==> Listed(reg, m, j)
    requires forall j: nat :: j in ids <==> j < |reg| && !reg[j].disabled && Allows(m, j)
    ensures Shows(catalog, reg, id) <==> Refused(reg, Some(m), id) == NotRefused
    ensures Shows(ids, reg, id) <==> Refused(reg, Some(m), id) == NotRefused
  {
    forall j: nat | j < |reg| ensures j in catalog <==> j in ids { AllowsByList(reg, m, j); }
    ShownIsAllowed(reg, m, catalog, id);
    ShownIsAllowed(reg, m, ids, id);
  }

  lemma ShownIsAllowed(reg: seq<Def>, m: Meta, list: seq<nat>, id: string)
    requires ValidRegistry(reg)
    requires forall j: nat :: j < |reg| ==> (j in list <==> !reg[j].disabled && Allows(m, j))
    ensures Shows(list, reg, id) <==> Refused(reg, Some(m), id) == NotRefused
  {
    hide And;
    var i := FindDef(reg, id);
    if Shows(list, reg, id) {
      var k :| 0 <= k < |list| && list[k] < |reg| && reg[list[k]].id == id;
      assert list[k] == i && list[k] in list;
    }
    if Refused(reg, Some(m), id) == NotRefused {
      assert i in list;
      var k :| 0 <= k < |list| && list[k] == i;
    }
  }

  /** The catalog and the id list of an accepted agent, as produced by the two renderers.
      Without an actions array only llm says what the agent may call. */
  method Views(reg: seq<Def>, entries: Option<seq<Entry>>, llm: bool, id: string)
      returns (meta: Option<Meta>, shown: bool, listed: bool)
    requires ValidRegistry(reg)
    ensures meta.Some? <==> entries.None? || Acceptable(reg, entries.value)
    ensures meta.Some? ==> (shown <==> Refused(reg, meta, id) == NotRefused) && (listed <==> shown)
    ensures entries.None? ==> (shown <==> !llm && exists i :: 0 <= i < |reg| && reg[i].id == id && !reg[i].disabled)
  {
    if entries.Some? {
      meta := ReadAllowlist(reg, entries.value);
    } else {
      UnlistedAgrees(llm, reg);
      UnlistedRefusal(reg, llm, id);
      meta := Some(Unlisted(llm));
    }
    shown, listed := false, false;
    if meta.Some? {
      var catalog := RenderAvailable(reg, meta.value);
      var ids := RenderAllowedIds(reg, meta.value);
      ThreeViewsAgree(reg, meta.value, catalog, ids, id);
      shown := Contains(reg, catalog, id);
      listed := Contains(reg, ids, id);
    }
  }

  method Contains(reg: seq<Def>, list: seq<nat>, id: string) returns (r: bool)
    ensures r <==> Shows(list, reg, id)
  {
    var k := 0;
    while k < |list|
      invariant 0 <= k <= |list|
      invariant forall l :: 0 <= l < k ==> !(list[l] < |reg| && reg[list[l]].id == id)
    {
      if list[k] < |reg| && reg[list[k]].id == id { return true; }
      k := k + 1;
    }
    r := false;
  }
}
