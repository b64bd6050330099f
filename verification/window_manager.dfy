/** The window registry (window_manager.py): windows kept by a generated id, in registration order,
    and the process-wide instance created on first use. The id generator is a parameter. */
module WindowManager {
  import opened Wrappers
  import Dicts

  datatype Registry<W> = Registry(windows: Dicts.Dict<string, W>)

  /** A new manager holds no windows. */
  function Empty<W>(): (wm: Registry<W>)
    ensures GetAllWindows(wm) == []
  {
    Registry([])
  }

  /** `register_window`: the window is stored under `freshId` (the uuid the source draws), which is
      returned. */
  function RegisterWindow<W>(wm: Registry<W>, freshId: string, w: W): (r: (Registry<W>, string))
    ensures r.1 == freshId && GetWindow(r.0, freshId) == Some(w)
    ensures forall id :: id != freshId ==> GetWindow(r.0, id) == GetWindow(wm, id)
  {
    (Registry(Dicts.Put(wm.windows, freshId, w)), freshId)
  }

  /** `unregister_window`: the id is forgotten; an unknown id changes nothing. */
  function UnregisterWindow<W>(wm: Registry<W>, id: string): (r: Registry<W>)
    ensures GetWindow(r, id) == None
    ensures forall other :: other != id ==> GetWindow(r, other) == GetWindow(wm, other)
    ensures GetWindow(wm, id) == None ==> r == wm
  {
    Registry(Dicts.Remove(wm.windows, id))
  }

  /** `get_window`: the window under the id, or None. */
  function GetWindow<W>(wm: Registry<W>, id: string): (r: Option<W>)
    ensures r.Some? <==> exists i :: 0 <= i < |wm.windows| && wm.windows[i].0 == id
  {
    Dicts.Get(wm.windows, id)
  }

  /** `get_all_windows`: the windows in registration order. */
  function GetAllWindows<W>(wm: Registry<W>): (r: seq<W>)
    ensures |r| == |wm.windows|
    ensures forall i :: 0 <= i < |r| ==> GetWindow(wm, wm.windows[i].0) == Some(r[i])
  {
    Dicts.Values(wm.windows)
  }

  /** A window registered under a new id is listed last, after all the others. */
  lemma RegisterAppends<W>(wm: Registry<W>, freshId: string, w: W)
    requires GetWindow(wm, freshId) == None
    ensures GetAllWindows(RegisterWindow(wm, freshId, w).0) == GetAllWindows(wm) + [w]
  {
    assert Dicts.Find(wm.windows, freshId) == None;
    assert Dicts.Put(wm.windows, freshId, w) == wm.windows + [(freshId, w)];
  }

  /** Registering and then unregistering a new id gives back the same registry. */
  lemma RegisterThenUnregister<W>(wm: Registry<W>, freshId: string, w: W)
    requires GetWindow(wm, freshId) == None
    ensures UnregisterWindow(RegisterWindow(wm, freshId, w).0, freshId) == wm
  {
    var d := wm.windows;
    assert Dicts.Find(d, freshId) == None;
    var d' := Dicts.Put(d, freshId, w);
    assert d' == d + [(freshId, w)];
    assert Dicts.Find(d', freshId) == Some(|d|);
    assert d'[..|d|] + d'[|d| + 1..] == d;
  }

  /** `WindowManagerSingleton.get_instance`: the stored instance, or a new empty one that is stored
      for later calls. `slot` is the class attribute before the call, `r.1` after it. */
  function GetInstance<W>(slot: Option<Registry<W>>): (r: (Registry<W>, Option<Registry<W>>))
    ensures r.1 == Some(r.0)
    ensures slot.Some? ==> r.0 == slot.value
    ensures slot.None? ==> GetAllWindows(r.0) == []
  {
    if slot.None? then (Empty(), Some(Empty())) else (slot.value, slot)
  }

  /** Every later call returns the instance the first call made. */
  lemma SameInstance<W>(slot: Option<Registry<W>>)
    ensures var first := GetInstance(slot);
      GetInstance(first.1) == first
  {
  }
}
