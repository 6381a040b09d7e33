/** The bridge between a sheet's document and the Svelte component mounted in
    it (module/sheets/utils/svelte-helpers.ts).

    `injectSvelteComponent` builds one props envelope `{data, update}` and
    mounts the component with it. The component calls `update(property,
    value)`, which persists the one-key patch without a host re-render, then,
    only if that succeeded, overwrites `data` in the same envelope with fresh
    sheet data and tells the component to re-read its props.

    Field values have the type parameter `V`, snapshots the type parameter `T`;
    `getData` is the sheet's snapshot function of the document's fields.
    Persistence is the document's `update`, whose outcome is a parameter.
 */
module SvelteBridge {

  /** What the storage layer answered to a document update. */
  datatype Outcome = Persisted | Failed(error: string)

  /** A document: its fields and the number of re-renders the host performed
      because of an update. */
  class Document<V> {
    var fields: map<string, V>
    var renders: nat

    constructor (fields: map<string, V>)
      ensures this.fields == fields && renders == 0
    {
      this.fields := fields;
      this.renders := 0;
    }

    /** `document.update(patch, {render})`: on success the patch is merged
        into the fields and the host re-renders only when asked to; on failure
        nothing changes. */
    method Update(patch: map<string, V>, render: bool, storage: Outcome) returns (outcome: Outcome)
      modifies this
      ensures outcome == storage
      ensures storage.Persisted? ==> fields == old(fields) + patch && renders == old(renders) + (if render then 1 else 0)
      ensures storage.Failed? ==> fields == old(fields) && renders == old(renders)
    {
      outcome := storage;
      if storage.Persisted? {
        fields := fields + patch;
        if render {
          renders := renders + 1;
        }
      }
    }
  }

  /** A sheet as the bridge sees it: its snapshot function and its document. */
  datatype Sheet<!V, T> = Sheet(getData: map<string, V> -> T, document: Document<V>)

  /** The props envelope. `update` is the bridge whose `Update` method is the
      callback; it is absent only while the envelope is being built. */
  class Props<V, T> {
    var data: T
    var update: Bridge?<V, T>

    constructor (data: T)
      ensures this.data == data && update == null
    {
      this.data := data;
      this.update := null;
    }
  }

  /** The mounted component. `seen` lists the `data` it read from its props at
      each notification, in order. */
  class Component<V, T> {
    const props: Props<V, T>
    var seen: seq<T>

    constructor (props: Props<V, T>)
      ensures this.props == props && seen == []
    {
      this.props := props;
      this.seen := [];
    }

    /** `app.$$.update()`: the component re-reads its props. */
    method Refresh()
      modifies this
      ensures seen == old(seen) + [props.data]
    {
      seen := seen + [props.data];
    }
  }

  /** What an observer can see of a bridge: the document's fields, the
      envelope's data and what the component has been shown. */
  datatype BridgeView<V, T> = BridgeView(fields: map<string, V>, data: T, seen: seq<T>)

  /** One call of the update callback. */
  datatype Edit<V> = Edit(property: string, value: V, storage: Outcome)

  /** The effect of `update(property, value)` when the storage layer answers
      `storage`. */
  function UpdateStep<V, T>(getData: map<string, V> -> T, v: BridgeView<V, T>, property: string, value: V, storage: Outcome): BridgeView<V, T>
  {
    if storage.Failed? then v
    else
      var fields := v.fields[property := value];
      var data := getData(fields);
      BridgeView(fields, data, v.seen + [data])
  }

  /** The effect of the update callback called once per edit, in order. */
  function Replay<V, T>(getData: map<string, V> -> T, v: BridgeView<V, T>, edits: seq<Edit<V>>): BridgeView<V, T>
    decreases |edits|
  {
    if |edits| == 0 then v
    else Replay(getData, UpdateStep(getData, v, edits[0].property, edits[0].value, edits[0].storage), edits[1..])
  }

  /** The number of edits the storage layer accepted. */
  function Successes<V>(edits: seq<Edit<V>>): nat
  {
    if |edits| == 0 then 0
    else (if edits[0].storage.Persisted? then 1 else 0) + Successes(edits[1..])
  }

  /** The envelope's data shows the document as it now is. */
  ghost predicate Synced<V, T>(getData: map<string, V> -> T, v: BridgeView<V, T>)
  {
    v.data == getData(v.fields)
  }

  /** A successful update writes exactly `property`, refreshes `data` from the
      new fields and shows the component that fresh data once. */
  lemma SuccessfulUpdateRefreshes<V, T>(getData: map<string, V> -> T, v: BridgeView<V, T>, property: string, value: V)
    ensures var r := UpdateStep(getData, v, property, value, Persisted);
      property in r.fields && r.fields[property] == value &&
      (forall k :: k in v.fields && k != property ==> k in r.fields && r.fields[k] == v.fields[k]) &&
      r.fields.Keys == v.fields.Keys + {property} &&
      Synced(getData, r) && r.seen == v.seen + [r.data]
  {
  }

  /** A failed update changes neither the fields, nor the data, nor what the
      component was shown. */
  lemma FailedUpdateIsIsolated<V, T>(getData: map<string, V> -> T, v: BridgeView<V, T>, property: string, value: V, error: string)
    ensures UpdateStep(getData, v, property, value, Failed(error)) == v
  {
  }

  /** Data replacement and notification go together: after any sequence of
      calls the component has been notified once per accepted edit. */
  lemma {:induction false} NotifiedOncePerSuccess<V, T>(getData: map<string, V> -> T, v: BridgeView<V, T>, edits: seq<Edit<V>>)
    decreases |edits|
    ensures var r := Replay(getData, v, edits);
      |r.seen| == |v.seen| + Successes(edits) && r.seen[..|v.seen|] == v.seen
  {
    if |edits| > 0 {
      var v1 := UpdateStep(getData, v, edits[0].property, edits[0].value, edits[0].storage);
      NotifiedOncePerSuccess(getData, v1, edits[1..]);
      var r := Replay(getData, v, edits);
      assert r.seen[..|v.seen|] == r.seen[..|v1.seen|][..|v.seen|];
    }
  }

  /** Once an edit has been accepted, the envelope's data is the snapshot of
      the current fields and is the last thing the component was shown; a
      synced bridge stays synced whatever the storage layer answers. */
  lemma {:induction false} ReplayKeepsSynced<V, T>(getData: map<string, V> -> T, v: BridgeView<V, T>, edits: seq<Edit<V>>)
    decreases |edits|
    ensures var r := Replay(getData, v, edits);
      (Synced(getData, v) || Successes(edits) > 0 ==> Synced(getData, r)) &&
      (Successes(edits) > 0 ==> |r.seen| > 0 && r.seen[|r.seen| - 1] == r.data)
  {
    if |edits| > 0 {
      var v1 := UpdateStep(getData, v, edits[0].property, edits[0].value, edits[0].storage);
      ReplayKeepsSynced(getData, v1, edits[1..]);
      if Successes(edits[1..]) == 0 {
        FailuresChangeNothing(getData, v1, edits[1..]);
      }
    }
  }

  /** Edits the storage layer all refused leave everything as it was. */
  lemma {:induction false} FailuresChangeNothing<V, T>(getData: map<string, V> -> T, v: BridgeView<V, T>, edits: seq<Edit<V>>)
    requires Successes(edits) == 0
    decreases |edits|
    ensures Replay(getData, v, edits) == v
  {
    if |edits| > 0 {
      FailuresChangeNothing(getData, v, edits[1..]);
    }
  }

  /** The closure state of one `injectSvelteComponent` call: the sheet, the
      envelope and the mounted component. */
  class Bridge<V, T> {
    const sheet: Sheet<V, T>
    const props: Props<V, T>
    var app: Component?<V, T>

    /** The envelope's callback is this bridge and the component was mounted
        with this envelope. */
    ghost predicate Valid()
      reads this, props, app
    {
      app != null && props.update == this && app.props == props
    }

    function Observed(): BridgeView<V, T>
      reads this, sheet.document, props, app
      requires app != null
    {
      BridgeView(sheet.document.fields, props.data, app.seen)
    }

    /** `injectSvelteComponent(sheet, component, html)`: the envelope starts
        with the sheet's current data and the callback, and the component is
        created once, with that envelope. The document is not touched. */
    constructor Inject(sheet: Sheet<V, T>)
      ensures Valid() && this.sheet == sheet && fresh(props) && fresh(app)
      ensures props.data == sheet.getData(sheet.document.fields) && app.seen == []
      ensures unchanged(sheet.document)
    {
      this.sheet := sheet;
      var envelope := new Props(sheet.getData(sheet.document.fields));
      this.props := envelope;
      new;
      envelope.update := this;
      app := new Component(envelope);
    }

    /** The update callback: persist `{property: value}` without a host
        re-render; only on success overwrite `props.data` with fresh sheet
        data and then notify the component. A storage failure is returned to
        the caller and nothing else changes. The envelope keeps its identity
        and its callback. */
    method Update(property: string, value: V, storage: Outcome) returns (outcome: Outcome)
      requires Valid()
      modifies sheet.document, props, app
      ensures Valid() && app == old(app) && outcome == storage
      ensures Observed() == UpdateStep(sheet.getData, old(Observed()), property, value, storage)
      ensures sheet.document.renders == old(sheet.document.renders)
    {
      outcome := sheet.document.Update(map[property := value], false, storage);
      if outcome.Failed? {
        return;
      }
      assert sheet.document.fields == old(sheet.document.fields)[property := value];
      props.data := sheet.getData(sheet.document.fields);
      app.Refresh();
    }
  }
}
