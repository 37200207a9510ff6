/**
 * The front-end's tab bar store (server/front-end/src/stores/tabs.js): a list
 * of tabs whose `active` flags the actions rewrite in place. Its invariant:
 * ids are unique, at most one tab is active, and the PAC preview tab is
 * always there and cannot be closed.
 */
module Tabs {
  import opened Common

  datatype Tab = Tab(id: string, name: string, component: string, closable: bool, active: bool)

  /** What a caller hands to addTab; `closable` may be left out. */
  datatype NewTab = NewTab(id: string, name: string, component: string, closable: Option<bool>)

  const PacPreviewId := "pac-preview"

  /** The one tab the store starts with. */
  const PacPreview := Tab(PacPreviewId, "PAC配置预览", "PACPreview", false, true)

  function HasId(id: string): Tab -> bool
  {
    (t: Tab) => t.id == id
  }

  predicate IsActive(t: Tab)
  {
    t.active
  }

  predicate UniqueIds(tabs: seq<Tab>)
  {
    forall i, j :: 0 <= i < j < |tabs| ==> tabs[i].id != tabs[j].id
  }

  predicate AtMostOneActive(tabs: seq<Tab>)
  {
    forall i, j :: 0 <= i < j < |tabs| && tabs[i].active ==> !tabs[j].active
  }

  predicate KeepsPacPreview(tabs: seq<Tab>)
  {
    exists k :: 0 <= k < |tabs| && tabs[k].id == PacPreviewId && !tabs[k].closable
  }

  predicate Good(tabs: seq<Tab>)
  {
    UniqueIds(tabs) && AtMostOneActive(tabs) && KeepsPacPreview(tabs)
  }

  /** Every tab with its `active` flag set to whether its id is `id` (setActiveTab). */
  function Activated(tabs: seq<Tab>, id: string): seq<Tab>
  {
    seq(|tabs|, k requires 0 <= k < |tabs| => tabs[k].(active := tabs[k].id == id))
  }

  /** Every tab inactive. */
  function Deactivated(tabs: seq<Tab>): seq<Tab>
  {
    seq(|tabs|, k requires 0 <= k < |tabs| => tabs[k].(active := false))
  }

  /** The tab addTab appends for a new id: active, and closable unless the caller said false. */
  function Opened(t: NewTab): Tab
  {
    Tab(t.id, t.name, t.component, t.closable != Some(false), true)
  }

  /** The list after addTab. */
  function Added(tabs: seq<Tab>, t: NewTab): seq<Tab>
  {
    match FindIndex(tabs, HasId(t.id))
      case None => Deactivated(tabs) + [Opened(t)]
      case Some(_) => Activated(tabs, t.id)
  }

  /** The list without its `i`-th tab (splice(i, 1)). */
  function Without(tabs: seq<Tab>, i: nat): seq<Tab>
    requires i < |tabs|
  {
    tabs[..i] + tabs[i + 1..]
  }

  /** The list after closing tab `i`: if it was the active one, the last remaining tab becomes active. */
  function Closed(tabs: seq<Tab>, i: nat): seq<Tab>
    requires i < |tabs|
  {
    var rest := Without(tabs, i);
    if tabs[i].active && |rest| > 0 then rest[|rest| - 1 := rest[|rest| - 1].(active := true)] else rest
  }

  /** The list after removeTab: only an existing, closable tab is closed. */
  function Removed(tabs: seq<Tab>, id: string): seq<Tab>
  {
    match FindIndex(tabs, HasId(id))
      case None => tabs
      case Some(i) => if !tabs[i].closable then tabs else Closed(tabs, i)
  }

  /** getActiveTab: the first active tab, if any. */
  function FirstActive(tabs: seq<Tab>): (r: Option<Tab>)
    ensures r.None? <==> forall k :: 0 <= k < |tabs| ==> !tabs[k].active
    ensures r.Some? ==>
      exists k :: 0 <= k < |tabs| && tabs[k] == r.value && tabs[k].active && forall j :: 0 <= j < k ==> !tabs[j].active
  {
    match FindIndex(tabs, IsActive)
      case None => None
      case Some(i) => Some(tabs[i])
  }

  /** With at most one active tab, the active tab is the one whose flag is set. */
  lemma FirstActiveIs(tabs: seq<Tab>, i: nat)
    requires AtMostOneActive(tabs) && i < |tabs| && tabs[i].active
    ensures FirstActive(tabs) == Some(tabs[i])
  {
    assert IsActive(tabs[i]);
  }

  /** The store's initial list satisfies the invariant, with the preview tab active. */
  lemma InitialGood()
    ensures Good([PacPreview]) && FirstActive([PacPreview]) == Some(PacPreview)
  {
    assert [PacPreview][0].id == PacPreviewId;
  }

  /** The id lookup addTab and removeTab use finds the only tab with that id. */
  lemma FindById(tabs: seq<Tab>, i: nat)
    requires UniqueIds(tabs) && i < |tabs|
    ensures FindIndex(tabs, HasId(tabs[i].id)) == Some(i)
  {
    var p := HasId(tabs[i].id);
    forall j | 0 <= j < |tabs| ensures p(tabs[j]) <==> j == i {
    }
  }

  /** setActiveTab: with unique ids, the tab with that id becomes the only active one, and an unknown id leaves none. */
  lemma {:induction false} ActivatedOnly(tabs: seq<Tab>, id: string)
    requires UniqueIds(tabs)
    ensures Good(tabs) ==> Good(Activated(tabs, id))
    ensures FirstActive(Activated(tabs, id)) ==
      match FindIndex(tabs, HasId(id))
        case None => None
        case Some(i) => Some(tabs[i].(active := true))
  {
    var r := Activated(tabs, id);
    if Good(tabs) {
      var k :| 0 <= k < |tabs| && tabs[k].id == PacPreviewId && !tabs[k].closable;
      assert r[k].id == PacPreviewId && !r[k].closable;
    }
    match FindIndex(tabs, HasId(id))
    case None =>
      forall k | 0 <= k < |r| ensures !r[k].active {
        assert !HasId(id)(tabs[k]);
      }
    case Some(i) =>
      assert HasId(id)(tabs[i]);
      FirstActiveIs(r, i);
  }

  /** addTab: the tab with the given id ends up the only active one, and the invariant is kept. */
  lemma {:induction false} AddedActivates(tabs: seq<Tab>, t: NewTab)
    requires Good(tabs)
    ensures Good(Added(tabs, t))
    ensures FirstActive(Added(tabs, t)).Some? && FirstActive(Added(tabs, t)).value.id == t.id
    ensures forall k :: 0 <= k < |Added(tabs, t)| ==> (Added(tabs, t)[k].active <==> Added(tabs, t)[k].id == t.id)
  {
    var r := Added(tabs, t);
    match FindIndex(tabs, HasId(t.id))
    case None =>
      var d := Deactivated(tabs);
      assert forall k :: 0 <= k < |tabs| ==> !HasId(t.id)(tabs[k]);
      assert forall k :: 0 <= k < |tabs| ==> tabs[k].id != t.id;
      var k :| 0 <= k < |tabs| && tabs[k].id == PacPreviewId && !tabs[k].closable;
      assert r[k].id == PacPreviewId && !r[k].closable;
      FirstActiveIs(r, |tabs|);
    case Some(i) =>
      ActivatedOnly(tabs, t.id);
      assert HasId(t.id)(tabs[i]);
      forall k | 0 <= k < |r| ensures r[k].active <==> r[k].id == t.id {
      }
  }

  /** addTab with an id already present adds nothing: the same tabs, in the same order. */
  lemma AddExistingKeepsTabs(tabs: seq<Tab>, t: NewTab, i: nat)
    requires i < |tabs| && tabs[i].id == t.id
    ensures |Added(tabs, t)| == |tabs|
    ensures forall k :: 0 <= k < |tabs| ==> Added(tabs, t)[k].(active := tabs[k].active) == tabs[k]
  {
    assert HasId(t.id)(tabs[i]);
  }

  /** removeTab of an unknown id or of a tab that cannot be closed changes nothing; in particular the preview tab stays. */
  lemma RemoveRefused(tabs: seq<Tab>, id: string)
    requires UniqueIds(tabs)
    requires forall k :: 0 <= k < |tabs| && tabs[k].id == id ==> !tabs[k].closable
    ensures Removed(tabs, id) == tabs
  {
    match FindIndex(tabs, HasId(id))
    case None =>
    case Some(i) =>
      assert HasId(id)(tabs[i]);
  }

  /** In a valid list the preview tab can never be removed. */
  lemma PreviewNeverRemoved(tabs: seq<Tab>)
    requires Good(tabs)
    ensures Removed(tabs, PacPreviewId) == tabs
  {
    var k :| 0 <= k < |tabs| && tabs[k].id == PacPreviewId && !tabs[k].closable;
    forall j | 0 <= j < |tabs| && tabs[j].id == PacPreviewId ensures !tabs[j].closable {
      assert j == k;
    }
    RemoveRefused(tabs, PacPreviewId);
  }

  /** Dropping tab `i` shifts the later tabs down by one and keeps everything else. */
  lemma WithoutAt(tabs: seq<Tab>, i: nat)
    requires i < |tabs|
    ensures |Without(tabs, i)| == |tabs| - 1
    ensures forall k :: 0 <= k < |tabs| - 1 ==> Without(tabs, i)[k] == (if k < i then tabs[k] else tabs[k + 1])
  {
  }

  /** removeTab of a closable tab closes that very tab. */
  lemma RemoveClosable(tabs: seq<Tab>, i: nat)
    requires UniqueIds(tabs) && i < |tabs| && tabs[i].closable
    ensures Removed(tabs, tabs[i].id) == Closed(tabs, i)
  {
    FindById(tabs, i);
  }

  /** Closing a tab changes only the `active` flag of the tabs it keeps. */
  lemma ClosedKeeps(tabs: seq<Tab>, i: nat)
    requires i < |tabs|
    ensures |Closed(tabs, i)| == |tabs| - 1
    ensures forall k :: 0 <= k < |tabs| - 1 ==>
      Closed(tabs, i)[k].(active := false) == (if k < i then tabs[k] else tabs[k + 1]).(active := false)
  {
    WithoutAt(tabs, i);
  }

  /** Closing a closable tab of a valid list keeps the invariant. */
  lemma {:induction false} ClosedGood(tabs: seq<Tab>, i: nat)
    requires Good(tabs) && i < |tabs| && tabs[i].closable
    ensures Good(Closed(tabs, i))
  {
    var r := Closed(tabs, i);
    ClosedKeeps(tabs, i);
    ClosedActive(tabs, i);
    forall a, b | 0 <= a < b < |r| ensures r[a].id != r[b].id {
      assert r[a].(active := false).id == r[a].id && r[b].(active := false).id == r[b].id;
    }
    var p :| 0 <= p < |tabs| && tabs[p].id == PacPreviewId && !tabs[p].closable;
    var q := if p < i then p else p - 1;
    assert r[q].(active := false) == tabs[p].(active := false);
    assert r[q].id == PacPreviewId && !r[q].closable;
  }

  /**
   * Closing the active tab leaves the last remaining tab the only active one; closing an inactive
   * tab keeps the active tab.
   */
  lemma {:induction false} ClosedActive(tabs: seq<Tab>, i: nat)
    requires AtMostOneActive(tabs) && i < |tabs|
    ensures AtMostOneActive(Closed(tabs, i))
    ensures tabs[i].active && |tabs| > 1 ==> FirstActive(Closed(tabs, i)) == Some(Closed(tabs, i)[|tabs| - 2])
    ensures !tabs[i].active ==> FirstActive(Closed(tabs, i)) == FirstActive(tabs)
  {
    var rest := Without(tabs, i);
    var r := Closed(tabs, i);
    WithoutAt(tabs, i);
    if tabs[i].active {
      forall k | 0 <= k < |rest| ensures !rest[k].active {
        assert rest[k] == (if k < i then tabs[k] else tabs[k + 1]);
      }
      forall k | 0 <= k < |r| - 1 ensures !r[k].active {
        assert r[k] == rest[k];
      }
      if |tabs| > 1 {
        FirstActiveIs(r, |r| - 1);
      }
    } else {
      assert r == rest;
      match FindIndex(tabs, IsActive)
      case None =>
        assert forall k :: 0 <= k < |tabs| ==> !tabs[k].active;
      case Some(a) =>
        assert tabs[a].active;
        FirstActiveIs(tabs, a);
        FirstActiveIs(r, if a < i then a else a - 1);
    }
  }

  /** The tab bar store. */
  class TabStore {
    var tabs: seq<Tab>

    ghost predicate Valid()
      reads this
    {
      Good(tabs)
    }

    constructor()
      ensures Valid() && tabs == [PacPreview]
    {
      tabs := [PacPreview];
      InitialGood();
    }

    /** The active tab (getActiveTab). */
    function ActiveTab(): Option<Tab>
      reads this
    {
      FirstActive(tabs)
    }

    /** addTab: a new id deactivates every tab and appends the new one; a known id only activates that tab. */
    method AddTab(t: NewTab)
      requires Valid()
      modifies this
      ensures Valid()
      ensures tabs == Added(old(tabs), t)
    {
      AddedActivates(tabs, t);
      var existing := FindIndex(tabs, HasId(t.id));
      if existing.None? {
        var i := 0;
        while i < |tabs|
          invariant 0 <= i <= |tabs| == |old(tabs)|
          invariant forall k :: 0 <= k < i ==> tabs[k] == old(tabs)[k].(active := false)
          invariant forall k :: i <= k < |tabs| ==> tabs[k] == old(tabs)[k]
        {
          tabs := tabs[i := tabs[i].(active := false)];
          i := i + 1;
        }
        assert tabs == Deactivated(old(tabs));
        tabs := tabs + [Opened(t)];
      } else {
        ActivatedOnly(tabs, t.id);
        SetActiveTab(t.id);
      }
    }

    /** removeTab: only an existing, closable tab goes; if it was active the last remaining tab becomes active. */
    method RemoveTab(tabId: string)
      requires Valid()
      modifies this
      ensures Valid()
      ensures tabs == Removed(old(tabs), tabId)
    {
      var index := FindIndex(tabs, HasId(tabId));
      if index.Some? && tabs[index.value].closable {
        var i := index.value;
        ClosedGood(tabs, i);
        ghost var closed := Closed(tabs, i);
        var wasActive := tabs[i].active;
        tabs := tabs[..i] + tabs[i + 1..];
        if wasActive && |tabs| > 0 {
          tabs := tabs[|tabs| - 1 := tabs[|tabs| - 1].(active := true)];
        }
        assert tabs == closed;
      }
    }

    /** setActiveTab: each tab is active exactly when its id is `tabId`. */
    method SetActiveTab(tabId: string)
      requires Valid()
      modifies this
      ensures Valid()
      ensures tabs == Activated(old(tabs), tabId)
    {
      ActivatedOnly(tabs, tabId);
      var i := 0;
      while i < |tabs|
        invariant 0 <= i <= |tabs| == |old(tabs)|
        invariant forall k :: 0 <= k < i ==> tabs[k] == old(tabs)[k].(active := old(tabs)[k].id == tabId)
        invariant forall k :: i <= k < |tabs| ==> tabs[k] == old(tabs)[k]
      {
        tabs := tabs[i := tabs[i].(active := tabs[i].id == tabId)];
        i := i + 1;
      }
      assert tabs == Activated(old(tabs), tabId);
    }
  }
}
