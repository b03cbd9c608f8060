/**
 * The table of components that moved to the library's `internal` directory, and the two lookups
 * over it used by the `transformInternals` pass of
 * packages/react-ui-codemodes/react-ui-2.0/transformImportsAndExports.ts.
 */
module CodemodInternals {
  import opened Wrappers

  type Table = seq<(string, string)>

  /** `INTERNALS` exactly as the source writes it, in declaration order (the order of `Object.keys`). */
  const InternalsAsWritten: Table := [
    ("Calendar", "internal/Calendar"),
    ("CustomComboBox", "internal/CustomComboBox"),
    ("DateSelect", "internal/DateSelect"),
    ("DropdownContainer", "internal/DropdownContainer"),
    ("HideBodyVerticalScroll", "internal/HideBodyVerticalScroll"),
    ("IgnoreLayerClick", "internal/IgnoreLayerClick"),
    ("Menu", "internal/Menu"),
    ("Popup", "internal/Popup"),
    ("RenderContainer", "internal/RenderContainer"),
    ("RenderLayer", "internal/RenderLayer"),
    ("ZIndex", "internal/ZIndex"),
    ("FocusTrap", "internal/FocusTrap"),
    ("InputLikeText", "internal/InputLikeText"),
    ("InternalMenu", "internalinternalMenu"),
    ("MaskedInput", "internal/MaskedInput"),
    ("PopupMenu", "internal/PopupMenu"),
    ("ResizeDetector", "internal/ResizeDetector"),
    ("PerformanceMetrics", "internal/PerformanceMetrics"),
    ("ModalStack", "internal/ModalStack"),
    ("ThemeShowcase", "internal/ThemeShowcase"),
    ("Icon", "internal/icons/20px"),
    ("createPropsGetter", "internal/createPropsGetter"),
    ("currentEnvironment", "internal/currentEnvironment"),
    ("extractKeyboardAction", "internal/extractKeyboardAction")
  ]

  /** The position of `InternalMenu` in the table. */
  const InternalMenuIndex: nat := 13

  /** The table with the `InternalMenu` entry pointing into the `internal` directory like every other entry. */
  const Internals: Table := InternalsAsWritten[InternalMenuIndex := ("InternalMenu", "internal/InternalMenu")]

  /** Names that start with an internal name but are public components. */
  const WhiteList: seq<string> := ["MenuItem", "MenuHeader", "MenuSeparator"]

  /** `isInternalComponent(name)`: no white-listed name is a prefix of it, and some internal name is. */
  predicate IsInternalComponent(name: string)
  {
    (forall w :: 0 <= w < |WhiteList| ==> !(WhiteList[w] <= name)) &&
    (exists i :: 0 <= i < |InternalsAsWritten| && InternalsAsWritten[i].0 <= name)
  }

  /** Some key of the table is a prefix of `name`. */
  predicate HasPrefixKey(t: Table, name: string)
  {
    exists i :: 0 <= i < |t| && t[i].0 <= name
  }

  /** The first key, in table order from `from`, that is a prefix of `name` (`Array.prototype.find`). */
  function FirstPrefixIndex(t: Table, name: string, from: nat): (r: Option<nat>)
    requires from <= |t|
    ensures r.Some? ==> from <= r.value < |t| && t[r.value].0 <= name
    ensures r.Some? ==> forall j :: from <= j < r.value ==> !(t[j].0 <= name)
    ensures r.None? ==> forall j :: from <= j < |t| ==> !(t[j].0 <= name)
    decreases |t| - from
  {
    if from == |t| then None
    else if t[from].0 <= name then Some(from)
    else FirstPrefixIndex(t, name, from + 1)
  }

  /**
   * `getInternalComponentPath(name)` as written: the path of the first key in table order that is a
   * prefix of `name`, under `source`; None when no key is.
   */
  function GetInternalComponentPathAsWritten(source: string, name: string): (r: Option<string>)
    ensures r.Some? <==> HasPrefixKey(InternalsAsWritten, name)
    ensures r.Some? ==> exists i :: (0 <= i < |InternalsAsWritten| && InternalsAsWritten[i].0 <= name &&
      (forall j :: 0 <= j < i ==> !(InternalsAsWritten[j].0 <= name)) &&
      r.value == source + "/" + InternalsAsWritten[i].1)
  {
    match FirstPrefixIndex(InternalsAsWritten, name, 0)
    case None => None
    case Some(i) => Some(source + "/" + InternalsAsWritten[i].1)
  }

  /** Among the keys from `from` on, or `best`, the longest that is a prefix of `name`; the earliest on ties. */
  function LongestPrefixIndex(t: Table, name: string, from: nat, best: Option<nat>): (r: Option<nat>)
    requires from <= |t|
    requires best.Some? ==> best.value < from && t[best.value].0 <= name
    requires best.Some? ==> forall j :: 0 <= j < from && t[j].0 <= name ==> |t[j].0| <= |t[best.value].0|
    requires best.None? ==> forall j :: 0 <= j < from ==> !(t[j].0 <= name)
    ensures r.Some? ==> r.value < |t| && t[r.value].0 <= name
    ensures r.Some? ==> forall j :: 0 <= j < |t| && t[j].0 <= name ==> |t[j].0| <= |t[r.value].0|
    ensures r.None? ==> forall j :: 0 <= j < |t| ==> !(t[j].0 <= name)
    decreases |t| - from
  {
    if from == |t| then best
    else if t[from].0 <= name && (best.None? || |t[best.value].0| < |t[from].0|) then
      LongestPrefixIndex(t, name, from + 1, Some(from))
    else
      LongestPrefixIndex(t, name, from + 1, best)
  }

  /**
   * `getInternalComponentPath(name)`, corrected: the path of the longest key that is a prefix of `name`,
   * under `source`; None when no key is.
   */
  function GetInternalComponentPath(source: string, name: string): (r: Option<string>)
    ensures r.Some? <==> HasPrefixKey(Internals, name)
    ensures r.Some? ==> exists i :: (0 <= i < |Internals| && Internals[i].0 <= name &&
      (forall j :: 0 <= j < |Internals| && Internals[j].0 <= name ==> |Internals[j].0| <= |Internals[i].0|) &&
      r.value == source + "/" + Internals[i].1)
  {
    match LongestPrefixIndex(Internals, name, 0, None)
    case None => None
    case Some(i) => Some(source + "/" + Internals[i].1)
  }

  /** The text after the source prefix in a looked-up path. */
  lemma PathHasSourcePrefix(source: string, name: string)
    ensures GetInternalComponentPath(source, name).Some? ==> source + "/" <= GetInternalComponentPath(source, name).value
  {
  }

  /** Every name selected as internal has a path, under both lookups. */
  lemma InternalComponentHasPath(source: string, name: string)
    requires IsInternalComponent(name)
    ensures GetInternalComponentPath(source, name).Some?
    ensures GetInternalComponentPathAsWritten(source, name).Some?
  {
    var i :| 0 <= i < |InternalsAsWritten| && InternalsAsWritten[i].0 <= name;
    assert Internals[i].0 == InternalsAsWritten[i].0;
  }

  /** The corrected table has the same keys, in the same order, and differs only in the `InternalMenu` path. */
  lemma CorrectionTouchesOnlyInternalMenu()
    ensures |Internals| == |InternalsAsWritten| == 24
    ensures forall i :: 0 <= i < |Internals| ==> Internals[i].0 == InternalsAsWritten[i].0
    ensures forall i :: 0 <= i < |Internals| && i != InternalMenuIndex ==> Internals[i] == InternalsAsWritten[i]
    ensures Internals[InternalMenuIndex] != InternalsAsWritten[InternalMenuIndex]
  {
    assert Internals[InternalMenuIndex].1[8] != InternalsAsWritten[InternalMenuIndex].1[8];
  }

  /** `MenuItem` starts with the internal name `Menu`, yet it is not internal. */
  lemma MenuItemIsNotInternal()
    ensures "Menu" <= "MenuItem" && !IsInternalComponent("MenuItem")
    ensures !IsInternalComponent("MenuHeader") && !IsInternalComponent("MenuSeparator")
  {
    assert WhiteList[0] <= "MenuItem";
    assert WhiteList[1] <= "MenuHeader";
    assert WhiteList[2] <= "MenuSeparator";
  }

  /** The keys of the table are pairwise different. */
  lemma {:induction false} InternalKeysDistinct()
    ensures forall i, j :: 0 <= i < j < |Internals| ==> Internals[i].0 != Internals[j].0
  {
  }

  /** Every entry of the corrected table leads into the `internal` directory. */
  lemma AllInternalPathsUnderInternal()
    ensures forall i :: 0 <= i < |Internals| ==> "internal/" <= Internals[i].1
  {
  }

  /** Hence under the corrected lookup every key reaches its own entry. */
  lemma {:induction false} EveryKeyReachesItsEntry(source: string, i: nat)
    requires i < |Internals|
    ensures GetInternalComponentPath(source, Internals[i].0) == Some(source + "/" + Internals[i].1)
  {
    var name := Internals[i].0;
    assert HasPrefixKey(Internals, name) by { assert Internals[i].0 <= name; }
    var r := GetInternalComponentPath(source, name);
    var k :| 0 <= k < |Internals| && Internals[k].0 <= name &&
      (forall j :: 0 <= j < |Internals| && Internals[j].0 <= name ==> |Internals[j].0| <= |Internals[k].0|) &&
      r.value == source + "/" + Internals[k].1;
    assert |Internals[i].0| <= |Internals[k].0|;
    assert Internals[k].0 == name;
    InternalKeysDistinct();
    assert k == i;
  }

  /** A string whose first character differs from that of `p` does not start with `p`. */
  lemma NotPrefixByFirstChar(p: string, name: string)
    requires 0 < |p| && 0 < |name| && p[0] != name[0]
    ensures !(p <= name)
  {
  }

  /** No key before `Popup` starts with a `P`, so a name starting with `P` passes them all. */
  lemma KeysBeforePopupDoNotMatch(name: string)
    requires 0 < |name| && name[0] == 'P'
    ensures forall j :: 0 <= j < 7 ==> !(InternalsAsWritten[j].0 <= name)
  {
    forall j | 0 <= j < 7
      ensures !(InternalsAsWritten[j].0 <= name)
    {
      NotPrefixByFirstChar(InternalsAsWritten[j].0, name);
    }
  }

  /** The first matching key is the one at `k` when it matches and no key before it does. */
  lemma {:induction false} FirstPrefixIndexAt(t: Table, name: string, from: nat, k: nat)
    requires from <= k < |t| && t[k].0 <= name
    requires forall j :: from <= j < k ==> !(t[j].0 <= name)
    ensures FirstPrefixIndex(t, name, from) == Some(k)
    decreases k - from
  {
    if from < k {
      FirstPrefixIndexAt(t, name, from + 1, k);
    }
  }

  /** As written, a name that extends `Popup` resolves through the first matching key, which is `Popup`. */
  lemma PopupExtensionAsWritten(source: string, name: string)
    requires "Popup" <= name
    ensures GetInternalComponentPathAsWritten(source, name) == Some(source + "/" + "internal/Popup")
  {
    KeysBeforePopupDoNotMatch(name);
    FirstPrefixIndexAt(InternalsAsWritten, name, 0, 7);
  }

  /** As written, the `InternalMenu` entry is not under the `internal` directory. */
  lemma InternalMenuPathAsWritten()
    ensures InternalsAsWritten[InternalMenuIndex] == ("InternalMenu", "internalinternalMenu")
    ensures !("internal/" <= InternalsAsWritten[InternalMenuIndex].1)
  {
    assert InternalsAsWritten[InternalMenuIndex].1[8] != '/';
  }

  /** As written, `PopupMenu` resolves through the earlier key `Popup`, so its own entry is never used. */
  lemma PopupMenuShadowedAsWritten(source: string)
    ensures GetInternalComponentPathAsWritten(source, "PopupMenu") == Some(source + "/" + "internal/Popup")
  {
    PopupExtensionAsWritten(source, "PopupMenu");
  }

  /** `PopupMenu` passes the `isInternalComponent` filter. */
  lemma PopupMenuIsInternal()
    ensures IsInternalComponent("PopupMenu")
  {
    assert InternalsAsWritten[15].0 <= "PopupMenu";
    forall w | 0 <= w < |WhiteList|
      ensures !(WhiteList[w] <= "PopupMenu")
    {
      NotPrefixByFirstChar(WhiteList[w], "PopupMenu");
    }
  }

  /** The corrected lookup sends `PopupMenu` to its own entry. */
  lemma PopupMenuReachesItsEntry(source: string)
    ensures GetInternalComponentPath(source, "PopupMenu") == Some(source + "/" + "internal/PopupMenu")
  {
    assert Internals[15] == ("PopupMenu", "internal/PopupMenu");
    EveryKeyReachesItsEntry(source, 15);
  }

  /** A string that differs from `p` at a position both have does not start with `p`. */
  lemma NotPrefixAt(p: string, name: string, k: nat)
    requires k < |p| && k < |name| && p[k] != name[k]
    ensures !(p <= name)
  {
  }

  /** No key before `InternalMenu` is a prefix of a name that starts with `Int`. */
  lemma KeysBeforeInternalMenuDoNotMatch(name: string)
    requires "Int" <= name
    ensures forall j :: 0 <= j < InternalMenuIndex ==> !(InternalsAsWritten[j].0 <= name)
  {
    forall j | 0 <= j < InternalMenuIndex
      ensures !(InternalsAsWritten[j].0 <= name)
    {
      var k := if j == 5 then 1 else if j == 12 then 2 else 0;
      assert InternalsAsWritten[j].0[k] != name[k];
      NotPrefixAt(InternalsAsWritten[j].0, name, k);
    }
  }

  /** As written, a name that extends `InternalMenu` resolves to a path outside the `internal` directory. */
  lemma InternalMenuExtensionAsWritten(source: string, name: string)
    requires "InternalMenu" <= name
    ensures GetInternalComponentPathAsWritten(source, name) == Some(source + "/" + "internalinternalMenu")
  {
    InternalMenuPathAsWritten();
    var entry := InternalsAsWritten[InternalMenuIndex];
    assert "Int" <= name by {
      assert name[..3] == "InternalMenu"[..3];
    }
    KeysBeforeInternalMenuDoNotMatch(name);
    assert entry.0 <= name;
    FirstPrefixIndexAt(InternalsAsWritten, name, 0, InternalMenuIndex);
    assert GetInternalComponentPathAsWritten(source, name) == Some(source + "/" + entry.1);
  }

  /** As written, the name `InternalMenu` resolves to a path outside the `internal` directory. */
  lemma InternalMenuResolvesAsWritten(source: string)
    ensures GetInternalComponentPathAsWritten(source, "InternalMenu") == Some(source + "/" + "internalinternalMenu")
  {
    InternalMenuExtensionAsWritten(source, "InternalMenu");
  }

  /** The corrected table sends `InternalMenu` into the `internal` directory. */
  lemma InternalMenuReachesItsEntry(source: string)
    ensures GetInternalComponentPath(source, "InternalMenu") == Some(source + "/" + "internal/InternalMenu")
  {
    assert Internals[InternalMenuIndex] == ("InternalMenu", "internal/InternalMenu");
    EveryKeyReachesItsEntry(source, InternalMenuIndex);
  }
}
