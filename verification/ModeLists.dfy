/** Editing of the comma separated hidden/whitelist settings (config_make_modes_string)
    and the membership test used on them (common_mode_in_list). */
module ModeLists {
  import opened Basics
  import opened Tokens

  /** The tokens the editing loop keeps from ts. */
  function Kept(ts: seq<string>, mode: string, adding: bool): (r: seq<string>)
    ensures "" !in r
    ensures forall t :: t in r ==> t in ts
    ensures !adding ==> mode !in r
  {
    if |ts| == 0 then []
    else
      var init := Kept(ts[..|ts| - 1], mode, adding);
      var t := ts[|ts| - 1];
      if t == "" || (t == mode && (!adding || mode in init)) then init else init + [t]
  }

  function Edited(ts: seq<string>, mode: string, adding: bool): seq<string> {
    var kept := Kept(ts, mode, adding);
    if adding && mode !in kept then kept + [mode] else kept
  }

  function TextOf(value: Option<string>): string {
    value.GetOr("")
  }

  /** The new value of the setting. */
  function ModesString(value: Option<string>, mode: string, adding: bool): string {
    Join(Edited(Split(TextOf(value)), mode, adding))
  }

  lemma KeptGrows(ts: seq<string>, i: nat, mode: string, adding: bool)
    requires i < |ts|
    ensures var kept := Kept(ts[..i], mode, adding);
            Kept(ts[..i + 1], mode, adding) ==
            if ts[i] == "" || (ts[i] == mode && (!adding || mode in kept)) then kept else kept + [ts[i]]
  {
    assert ts[..i + 1][..i] == ts[..i];
  }

  lemma JoinGrows(kept: seq<string>, t: string)
    requires "" !in kept
    ensures Join(kept) == "" <==> kept == []
    ensures Join(kept + [t]) == if Join(kept) == "" then t else Join(kept) + "," + t
  {
    JoinEmpty(kept);
    assert (kept + [t])[..|kept|] == kept;
    if kept == [] {
      assert kept + [t] == [t];
    }
  }

  method Append(text: string, t: string) returns (longer: string)
    ensures longer == if text == "" then t else text + "," + t
  {
    longer := text;
    if |longer| > 0 {
      longer := longer + ",";
    }
    longer := longer + t;
  }

  method MakeModesString(value: Option<string>, mode: string, addMode: bool) returns (modes: string)
    ensures modes == ModesString(value, mode, addMode)
  {
    var adding := addMode;
    var arr := Split(value.GetOr(""));
    var tmp := "";
    ghost var kept: seq<string> := [];
    for i := 0 to |arr|
      invariant kept == Kept(arr[..i], mode, addMode)
      invariant tmp == Join(kept)
      invariant adding == (addMode && mode !in kept)
    {
      KeptGrows(arr, i, mode, addMode);
      JoinGrows(kept, arr[i]);
      if |arr[i]| == 0 {
        continue;
      }
      if arr[i] == mode {
        if !adding {
          continue;
        }
        adding := false;
      }
      tmp := Append(tmp, arr[i]);
      kept := kept + [arr[i]];
    }
    assert arr[..|arr|] == arr;
    JoinGrows(kept, mode);
    if adding {
      tmp := Append(tmp, mode);
    }
    modes := tmp;
  }

  method ModeInList(mode: string, modes: Option<seq<string>>) returns (found: bool)
    ensures found <==> modes.Some? && mode in modes.value
  {
    if modes.None? {
      return false;
    }
    for i := 0 to |modes.value|
      invariant mode !in modes.value[..i]
    {
      if modes.value[i] == mode {
        return true;
      }
    }
    assert modes.value[..|modes.value|] == modes.value;
    return false;
  }

  function Without(ts: seq<string>, mode: string): (r: seq<string>)
    ensures mode !in r
  {
    if |ts| == 0 then []
    else if ts[|ts| - 1] == mode then Without(ts[..|ts| - 1], mode)
    else Without(ts[..|ts| - 1], mode) + [ts[|ts| - 1]]
  }

  function Count(ts: seq<string>, mode: string): nat {
    if |ts| == 0 then 0
    else Count(ts[..|ts| - 1], mode) + if ts[|ts| - 1] == mode then 1 else 0
  }

  lemma {:induction false} CountZero(ts: seq<string>, mode: string)
    ensures Count(ts, mode) == 0 <==> mode !in ts
  {
    if |ts| > 0 {
      CountZero(ts[..|ts| - 1], mode);
      assert ts == ts[..|ts| - 1] + [ts[|ts| - 1]];
    }
  }

  lemma LastToken(ts: seq<string>, t: string, mode: string)
    ensures Without(ts + [t], mode) == if t == mode then Without(ts, mode) else Without(ts, mode) + [t]
    ensures Count(ts + [t], mode) == Count(ts, mode) + if t == mode then 1 else 0
  {
    assert (ts + [t])[..|ts|] == ts;
  }

  lemma {:induction false} KeptOthers(ts: seq<string>, mode: string, adding: bool)
    requires mode != ""
    ensures Without(Kept(ts, mode, adding), mode) == Without(NonEmpty(ts), mode)
  {
    if |ts| > 0 {
      var init, t := ts[..|ts| - 1], ts[|ts| - 1];
      KeptOthers(init, mode, adding);
      LastToken(Kept(init, mode, adding), t, mode);
      LastToken(NonEmpty(init), t, mode);
    }
  }

  lemma {:induction false} KeptMember(ts: seq<string>, mode: string)
    requires mode != ""
    ensures mode in Kept(ts, mode, true) <==> mode in ts
  {
    if |ts| > 0 {
      var init, t := ts[..|ts| - 1], ts[|ts| - 1];
      KeptMember(init, mode);
      assert ts == init + [t];
    }
  }

  lemma {:induction false} KeptOnce(ts: seq<string>, mode: string, adding: bool)
    requires mode != ""
    ensures Count(Kept(ts, mode, adding), mode) <= 1
  {
    if |ts| > 0 {
      var init, t := ts[..|ts| - 1], ts[|ts| - 1];
      KeptOnce(init, mode, adding);
      CountZero(Kept(init, mode, adding), mode);
      LastToken(Kept(init, mode, adding), t, mode);
    }
  }

  lemma {:induction false} WithoutAbsent(ts: seq<string>, mode: string)
    requires mode !in ts
    ensures Without(ts, mode) == ts
  {
    if |ts| > 0 {
      WithoutAbsent(ts[..|ts| - 1], mode);
      assert ts == ts[..|ts| - 1] + [ts[|ts| - 1]];
    }
  }

  /** The loop leaves the other tokens alone and keeps at most one occurrence of the mode, the first. */
  lemma KeptTokens(ts: seq<string>, mode: string, adding: bool)
    requires mode != ""
    ensures Without(Kept(ts, mode, adding), mode) == Without(NonEmpty(ts), mode)
    ensures Count(Kept(ts, mode, adding), mode) == if adding && mode in ts then 1 else 0
    ensures adding ==> (mode in Kept(ts, mode, adding) <==> mode in ts)
    ensures !adding ==> Kept(ts, mode, adding) == Without(NonEmpty(ts), mode)
  {
    KeptOthers(ts, mode, adding);
    KeptOnce(ts, mode, adding);
    CountZero(Kept(ts, mode, adding), mode);
    if adding {
      KeptMember(ts, mode);
    } else {
      WithoutAbsent(Kept(ts, mode, adding), mode);
    }
  }

  /** A setting whose value has no spare occurrences and no empty token is left as it is. */
  lemma {:induction false} KeptIdempotent(ts: seq<string>, mode: string, adding: bool)
    ensures Kept(Kept(ts, mode, adding), mode, adding) == Kept(ts, mode, adding)
  {
    if |ts| > 0 {
      var init, t := ts[..|ts| - 1], ts[|ts| - 1];
      KeptIdempotent(init, mode, adding);
      var k := Kept(init, mode, adding);
      assert (k + [t])[..|k|] == k;
    }
  }

  /** The edited tokens, as read back from the stored string. */
  lemma ReadBack(value: Option<string>, mode: string, adding: bool)
    requires mode != "" && (adding ==> CommaFree(mode))
    ensures Split(ModesString(value, mode, adding)) == Edited(Split(TextOf(value)), mode, adding)
  {
    var ts := Split(TextOf(value));
    var r := Edited(ts, mode, adding);
    FieldsAreCommaFree(TextOf(value));
    JoinEmpty(r);
    if r != [] {
      FieldsOfJoin(r);
    }
  }

  lemma {:induction false} KeptOfNonEmpty(ts: seq<string>, mode: string, adding: bool)
    requires mode != ""
    ensures Kept(NonEmpty(ts), mode, adding) == Kept(ts, mode, adding)
  {
    if |ts| > 0 {
      var init, t := ts[..|ts| - 1], ts[|ts| - 1];
      KeptOfNonEmpty(init, mode, adding);
      assert (NonEmpty(init) + [t])[..|NonEmpty(init)|] == NonEmpty(init);
    }
  }

  lemma KeptLast(ts: seq<string>, t: string, mode: string)
    requires t != ""
    ensures var kept := Kept(ts, mode, true);
            Kept(ts + [t], mode, true) == if t == mode && mode in kept then kept else kept + [t]
  {
    assert (ts + [t])[..|ts|] == ts;
  }

  /** Behind a kept occurrence all others are dropped. */
  lemma {:induction false} KeptBehind(x: seq<string>, ts: seq<string>, mode: string)
    requires mode in x && Kept(x, mode, true) == x && "" !in ts
    ensures Kept(x + ts, mode, true) == x + Without(ts, mode)
    decreases |ts|
  {
    if |ts| == 0 {
      assert x + ts == x;
    } else {
      var init, t := ts[..|ts| - 1], ts[|ts| - 1];
      KeptBehind(x, init, mode);
      KeptLast(x + init, t, mode);
      assert x + ts == x + init + [t];
      assert (x + Without(init, mode)) + [t] == x + (Without(init, mode) + [t]);
    }
  }

  lemma {:induction false} KeptAll(ts: seq<string>, mode: string)
    requires mode !in ts
    ensures Kept(ts, mode, true) == NonEmpty(ts)
  {
    if |ts| > 0 {
      assert ts == ts[..|ts| - 1] + [ts[|ts| - 1]];
      KeptAll(ts[..|ts| - 1], mode);
    }
  }

  /** The occurrence that is kept is the first one. */
  lemma KeptFirst(ts: seq<string>, mode: string, i: nat)
    requires mode != "" && "" !in ts && i < |ts| && ts[i] == mode && mode !in ts[..i]
    ensures Kept(ts, mode, true) == ts[..i + 1] + Without(ts[i + 1..], mode)
  {
    KeptAll(ts[..i], mode);
    NonEmptyKeeps(ts[..i]);
    KeptLast(ts[..i], mode, mode);
    assert ts[..i + 1] == ts[..i] + [mode];
    KeptBehind(ts[..i + 1], ts[i + 1..], mode);
    assert ts == ts[..i + 1] + ts[i + 1..];
  }

  /** What editing promises to a reader of the setting: the other modes in their order, and this one
      exactly once (adding; where it was first, or else at the end) or never (exclude). */
  lemma EditPromise(value: Option<string>, mode: string, adding: bool)
    requires mode != "" && (adding ==> CommaFree(mode))
    ensures var before := NonEmpty(Split(TextOf(value)));
            var after := Split(ModesString(value, mode, adding));
            && "" !in after
            && Without(after, mode) == Without(before, mode)
            && Count(after, mode) == (if adding then 1 else 0)
            && (mode in after <==> adding)
            && (adding && mode !in before ==> after == before + [mode])
            && (forall i :: adding && 0 <= i < |before| && before[i] == mode && mode !in before[..i]
                  ==> after == before[..i + 1] + Without(before[i + 1..], mode))
  {
    var ts := Split(TextOf(value));
    ReadBack(value, mode, adding);
    KeptTokens(ts, mode, adding);
    NonEmptyMembers(ts);
    var k := Kept(ts, mode, adding);
    assert (k + [mode])[..|k|] == k;
    CountZero(k, mode);
    if adding && mode !in ts {
      KeptAll(ts, mode);
    }
    KeptOfNonEmpty(ts, mode, adding);
    forall i | adding && 0 <= i < |NonEmpty(ts)| && NonEmpty(ts)[i] == mode && mode !in NonEmpty(ts)[..i]
      ensures Split(ModesString(value, mode, adding)) == NonEmpty(ts)[..i + 1] + Without(NonEmpty(ts)[i + 1..], mode)
    {
      KeptFirst(NonEmpty(ts), mode, i);
    }
  }

  /** Hiding twice is hiding once; unhiding undoes hiding as far as unhiding can see. */
  lemma EditsCompose(value: Option<string>, mode: string)
    requires mode != "" && CommaFree(mode)
    ensures var hidden := ModesString(value, mode, true);
            && ModesString(Some(hidden), mode, true) == hidden
            && ModesString(Some(hidden), mode, false) == ModesString(value, mode, false)
  {
    var ts := Split(TextOf(value));
    var hidden := ModesString(value, mode, true);
    ReadBack(value, mode, true);
    var k, e := Kept(ts, mode, true), Edited(ts, mode, true);
    KeptIdempotent(ts, mode, true);
    assert (k + [mode])[..|k|] == k;
    assert Kept(e, mode, true) == e;
    KeptTokens(ts, mode, true);
    KeptTokens(ts, mode, false);
    KeptTokens(e, mode, false);
    NonEmptyKeeps(e);
    assert Without(e, mode) == Without(k, mode);
  }

  lemma {:induction false} KeptWithoutEmpty(ts: seq<string>, adding: bool)
    ensures Kept(ts, "", adding) == NonEmpty(ts)
  {
    if |ts| > 0 {
      KeptWithoutEmpty(ts[..|ts| - 1], adding);
    }
  }

  /** Exactly which mode names are found again after being added: comma-free ones, except that an empty
      name is lost when it is alone. */
  lemma IncludedModeIsFound(value: Option<string>, mode: string)
    ensures mode in Split(ModesString(value, mode, true))
       <==> CommaFree(mode) && (mode != "" || NonEmpty(Split(TextOf(value))) != [])
  {
    var ts := Split(TextOf(value));
    var text := ModesString(value, mode, true);
    FieldsAreCommaFree(text);
    if CommaFree(mode) {
      FieldsAreCommaFree(TextOf(value));
      var r := Edited(ts, mode, true);
      assert mode in r;
      JoinEmpty(r);
      FieldsOfJoin(r);
      if mode == "" {
        NonEmptyMembers(ts);
        assert "" !in Kept(ts, mode, true);
        KeptWithoutEmpty(ts, true);
      }
    }
  }

  /** Names that no list can hold, empty or with a comma, are never found: adding one puts it behind the nonempty
      tokens, removing one only drops the empty tokens. */
  lemma OddNames(value: Option<string>, mode: string, adding: bool)
    requires mode == "" || !CommaFree(mode)
    ensures var before := NonEmpty(Split(TextOf(value)));
            ModesString(value, mode, adding) == Join(if adding then before + [mode] else before)
  {
    var ts := Split(TextOf(value));
    FieldsAreCommaFree(TextOf(value));
    if mode == "" {
      KeptWithoutEmpty(ts, adding);
    } else if adding {
      KeptAll(ts, mode);
    } else {
      KeptTokens(ts, mode, false);
      NonEmptyMembers(ts);
      WithoutAbsent(NonEmpty(ts), mode);
    }
  }
}
