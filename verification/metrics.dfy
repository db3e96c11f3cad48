/**
 * The metrics tables of the Prometheus listener module: per step handle,
 * the number and total content size of records received, sent on, and
 * failed, each labelled with the step's module id. `init` fills the tables
 * from the `pipeline.steps.<name>.handle` and `pipeline.steps.<name>.id`
 * parameters; the record callbacks increment them. The iteration orders of
 * the two hash maps `init` walks are parameters, as are the lock outcomes.
 */
module Metrics {
  import opened Wrappers
  import opened Typedefs
  import opened Strings
  import opened Params
  import opened Metadata

  /** One table entry: the step's module id, a record count and a byte count. */
  datatype IoMetric = IoMetric(moduleId: string, num: nat, sizeBytes: nat)

  /** A new entry: both counters at zero. */
  function FreshMetric(id: string): (m: IoMetric)
    ensures m.moduleId == id && m.num == 0 && m.sizeBytes == 0
  {
    IoMetric(id, 0, 0)
  }

  type Table = map<Handle, IoMetric>

  /** `STATS_MSG_IN`, `STATS_MSG_OUT` and `STATS_ERRORS_NUM`. */
  datatype Tables = Tables(msgIn: Table, msgOut: Table, errors: Table)

  const Empty: Tables := Tables(map[], map[], map[])

  /** The three tables track the same handles. */
  predicate Aligned(t: Tables) {
    t.msgIn.Keys == t.msgOut.Keys == t.errors.Keys
  }

  // ---------------------------------------------------------------------------
  // Reading the step parameters.

  const StepsPrefix: string := "pipeline.steps."

  /** What `init` gathers for one step name: its handle and module id. */
  datatype StepEntry = StepEntry(handle: Handle, id: string)

  const DefaultEntry: StepEntry := StepEntry(0, "")

  /** The step parameters of the listener, with the common prefix stripped. */
  function StepConfig(store: ParamStore, h: Handle): (cfg: map<string, string>)
    ensures forall k :: k in cfg <==> GetParams(store, h).Some? && StepsPrefix + k in GetParams(store, h).value
  {
    FilterStripPrefix(GetParams(store, h).GetOr(map[]), StepsPrefix)
  }

  /** The step name of a stripped key: the text before its first dot; none without a dot. */
  function StepName(k: string): (r: Option<string>)
    ensures r.None? <==> '.' !in k
    ensures r.Some? ==> |r.value| < |k| && k[..|r.value|] == r.value && k[|r.value|] == '.' && '.' !in r.value
  {
    match FindFrom(k, ".", 0)
    case None =>
      assert forall i | 0 <= i < |k| :: k[i] != '.' by {
        forall i | 0 <= i < |k|
          ensures k[i] != '.'
        {
          assert !OccursAt(k, ".", i);
          assert k[i..i + 1] == [k[i]];
        }
      }
      None
    case Some(p) =>
      assert k[p..p + 1] == "." && k[p] == '.';
      assert forall i | 0 <= i < p :: k[..p][i] != '.' by {
        forall i | 0 <= i < p
          ensures k[..p][i] != '.'
        {
          assert !OccursAt(k, ".", i);
          assert k[i..i + 1] == [k[i]];
        }
      }
      Some(k[..p])
  }

  /** A key naming a step's handle. */
  predicate IsHandleKey(k: string) { EndsWith(k, ".handle") }

  /** A key naming a step's module id (checked only after the handle suffix). */
  predicate IsIdKey(k: string) { !EndsWith(k, ".handle") && EndsWith(k, ".id") }

  /**
   * One iteration of `init`'s loop over the step parameters: a key without
   * a dot is skipped; otherwise the step gets an entry (handle 0, empty id)
   * if it has none, then its handle or id is set when the key names one. A
   * handle value that is not a `u32` panics, shown as `None`.
   */
  function Absorb(parsed: map<string, StepEntry>, k: string, v: string): (r: Option<map<string, StepEntry>>)
    ensures r.None? <==> StepName(k).Some? && IsHandleKey(k) && ParseU32(v).None?
  {
    match StepName(k)
    case None => Some(parsed)
    case Some(name) =>
      var e := if name in parsed then parsed[name] else DefaultEntry;
      if IsHandleKey(k) then
        match ParseU32(v)
        case None => None
        case Some(n) => Some(parsed[name := e.(handle := n)])
      else if IsIdKey(k) then Some(parsed[name := e.(id := v)])
      else Some(parsed[name := e])
  }

  /** The loop over the step parameters in iteration order `order`. */
  function ParseSteps(cfg: map<string, string>, order: seq<string>): Option<map<string, StepEntry>>
    requires forall k :: k in order ==> k in cfg
    decreases |order|
  {
    if |order| == 0 then Some(map[])
    else
      var k := order[|order| - 1];
      match ParseSteps(cfg, order[..|order| - 1])
      case None => None
      case Some(p) => Absorb(p, k, cfg[k])
  }

  /** A handle parameter whose value is not a `u32`. */
  predicate BadHandle(cfg: map<string, string>, k: string) {
    k in cfg && StepName(k).Some? && IsHandleKey(k) && ParseU32(cfg[k]).None?
  }

  /** A step's handle, by the last of its handle keys in `order`; 0 without one. */
  function HandleOf(cfg: map<string, string>, order: seq<string>, name: string): Handle
    requires forall k :: k in order ==> k in cfg
    decreases |order|
  {
    if |order| == 0 then 0
    else
      var k := order[|order| - 1];
      if StepName(k) == Some(name) && IsHandleKey(k) && ParseU32(cfg[k]).Some? then ParseU32(cfg[k]).value
      else HandleOf(cfg, order[..|order| - 1], name)
  }

  /** A step's module id, by the last of its id keys in `order`; empty without one. */
  function IdOf(cfg: map<string, string>, order: seq<string>, name: string): string
    requires forall k :: k in order ==> k in cfg
    decreases |order|
  {
    if |order| == 0 then ""
    else
      var k := order[|order| - 1];
      if StepName(k) == Some(name) && IsIdKey(k) then cfg[k]
      else IdOf(cfg, order[..|order| - 1], name)
  }

  /** With no key of the step in `order`, the step has the default handle and id. */
  lemma {:induction false} NoKeysDefaults(cfg: map<string, string>, order: seq<string>, name: string)
    requires forall k :: k in order ==> k in cfg
    requires forall i :: 0 <= i < |order| ==> StepName(order[i]) != Some(name)
    ensures HandleOf(cfg, order, name) == 0 && IdOf(cfg, order, name) == ""
    decreases |order|
  {
    if |order| > 0 {
      NoKeysDefaults(cfg, order[..|order| - 1], name);
    }
  }

  /** One iteration of the loop, entry by entry. */
  lemma AbsorbSpec(p: map<string, StepEntry>, k: string, v: string)
    requires Absorb(p, k, v).Some?
    ensures forall name :: name in Absorb(p, k, v).value <==> name in p || StepName(k) == Some(name)
    ensures forall name :: name in p && StepName(k) != Some(name) ==> Absorb(p, k, v).value[name] == p[name]
    ensures StepName(k).Some? ==>
              var name := StepName(k).value;
              var e := if name in p then p[name] else DefaultEntry;
              Absorb(p, k, v).value[name] ==
                StepEntry(if IsHandleKey(k) then ParseU32(v).value else e.handle, if IsIdKey(k) then v else e.id)
  {
  }

  /** The parameter loop panics exactly when some handle parameter is not a `u32`, whatever the order. */
  lemma {:induction false} ParseStepsPanics(cfg: map<string, string>, order: seq<string>)
    requires forall k :: k in order ==> k in cfg
    ensures ParseSteps(cfg, order).None? <==> exists i :: 0 <= i < |order| && BadHandle(cfg, order[i])
    decreases |order|
  {
    if |order| > 0 {
      var n := |order| - 1;
      var pre := order[..n];
      assert forall i :: 0 <= i < n ==> pre[i] == order[i];
      ParseStepsPanics(cfg, pre);
      if ParseSteps(cfg, pre).None? {
        var i :| 0 <= i < n && BadHandle(cfg, pre[i]);
        assert BadHandle(cfg, order[i]);
      } else if !BadHandle(cfg, order[n]) {
        forall i | 0 <= i < |order|
          ensures !BadHandle(cfg, order[i])
        {
          if i < n {
            assert order[i] == pre[i];
          }
        }
      }
    }
  }

  /** One iteration of the loop, for the keys of one step name. */
  lemma AbsorbName(p: map<string, StepEntry>, k: string, v: string, name: string)
    requires Absorb(p, k, v).Some?
    ensures name in Absorb(p, k, v).value <==> name in p || StepName(k) == Some(name)
  {
  }

  /** The loop over a non-empty order is the loop over its prefix followed by one absorb. */
  lemma ParseStepsLast(cfg: map<string, string>, order: seq<string>)
    requires forall k :: k in order ==> k in cfg
    requires |order| > 0 && ParseSteps(cfg, order).Some?
    ensures var pre := order[..|order| - 1];
            && (forall k :: k in pre ==> k in cfg)
            && ParseSteps(cfg, pre).Some?
            && ParseSteps(cfg, order) == Absorb(ParseSteps(cfg, pre).value, order[|order| - 1], cfg[order[|order| - 1]])
  {
  }

  /** The loop gives an entry to exactly the step names of the keys with a dot. */
  lemma {:induction false} ParseStepsNames(cfg: map<string, string>, order: seq<string>, name: string)
    requires forall k :: k in order ==> k in cfg
    requires ParseSteps(cfg, order).Some?
    ensures name in ParseSteps(cfg, order).value <==> exists i :: 0 <= i < |order| && StepName(order[i]) == Some(name)
    decreases |order|
  {
    if |order| > 0 {
      var n := |order| - 1;
      var pre := order[..n];
      var k := order[n];
      ParseStepsLast(cfg, order);
      ParseStepsNames(cfg, pre, name);
      var p := ParseSteps(cfg, pre).value;
      var r := ParseSteps(cfg, order).value;
      assert r == Absorb(p, k, cfg[k]).value;
      AbsorbName(p, k, cfg[k], name);
      if exists i :: 0 <= i < |order| && StepName(order[i]) == Some(name) {
        var i :| 0 <= i < |order| && StepName(order[i]) == Some(name);
        if i < n {
          assert StepName(pre[i]) == Some(name);
          assert name in p;
        }
        assert name in r;
      } else {
        forall i | 0 <= i < n ensures StepName(pre[i]) != Some(name) {
          assert pre[i] == order[i];
        }
        assert name !in p && StepName(k) != Some(name);
        assert name !in r;
      }
    }
  }

  /** Each entry holds the handle and id of the step's last handle and id keys. */
  lemma {:induction false} ParseStepsValues(cfg: map<string, string>, order: seq<string>, name: string)
    requires forall k :: k in order ==> k in cfg
    requires ParseSteps(cfg, order).Some? && name in ParseSteps(cfg, order).value
    ensures ParseSteps(cfg, order).value[name] == StepEntry(HandleOf(cfg, order, name), IdOf(cfg, order, name))
    decreases |order|
  {
    if |order| > 0 {
      var n := |order| - 1;
      var pre := order[..n];
      var k := order[n];
      assert forall i :: 0 <= i < n ==> pre[i] == order[i];
      var p := ParseSteps(cfg, pre).value;
      AbsorbSpec(p, k, cfg[k]);
      if name in p {
        ParseStepsValues(cfg, pre, name);
      } else {
        ParseStepsNames(cfg, pre, name);
        NoKeysDefaults(cfg, pre, name);
      }
    }
  }

  /**
   * The parameter loop, declaratively: when it does not panic it yields an
   * entry for exactly the step names of the keys with a dot, each with the
   * handle and id given by the step's last handle and id keys.
   */
  lemma ParseStepsEntries(cfg: map<string, string>, order: seq<string>, name: string)
    requires forall k :: k in order ==> k in cfg
    requires ParseSteps(cfg, order).Some?
    ensures name in ParseSteps(cfg, order).value <==> exists i :: 0 <= i < |order| && StepName(order[i]) == Some(name)
    ensures name in ParseSteps(cfg, order).value ==>
              ParseSteps(cfg, order).value[name] == StepEntry(HandleOf(cfg, order, name), IdOf(cfg, order, name))
  {
    ParseStepsNames(cfg, order, name);
    if name in ParseSteps(cfg, order).value {
      ParseStepsValues(cfg, order, name);
    }
  }

  // ---------------------------------------------------------------------------
  // Filling the tables.

  /** A fresh entry for `e` in all three tables, replacing any entry for its handle. */
  function Insert(t: Tables, e: StepEntry): Tables {
    Tables(t.msgIn[e.handle := FreshMetric(e.id)],
           t.msgOut[e.handle := FreshMetric(e.id)],
           t.errors[e.handle := FreshMetric(e.id)])
  }

  /** The insertion loop over the parsed steps in iteration order `stepOrder`. */
  function InsertSteps(t: Tables, p: map<string, StepEntry>, stepOrder: seq<string>): Tables
    requires forall n :: n in stepOrder ==> n in p
    decreases |stepOrder|
  {
    if |stepOrder| == 0 then t
    else Insert(InsertSteps(t, p, stepOrder[..|stepOrder| - 1]), p[stepOrder[|stepOrder| - 1]])
  }

  /** Some step among `stepOrder` has handle `h`. */
  ghost predicate IsStepHandle(p: map<string, StepEntry>, stepOrder: seq<string>, h: Handle)
    requires forall n :: n in stepOrder ==> n in p
  {
    exists i :: 0 <= i < |stepOrder| && p[stepOrder[i]].handle == h
  }

  /** `h` has a fresh entry in all three tables, labelled with the id of one of the steps with that handle. */
  ghost predicate FreshFor(r: Tables, p: map<string, StepEntry>, stepOrder: seq<string>, h: Handle)
    requires forall n :: n in stepOrder ==> n in p
  {
    && h in r.msgIn && h in r.msgOut && h in r.errors
    && r.msgIn[h] == r.msgOut[h] == r.errors[h]
    && r.msgIn[h].num == 0 && r.msgIn[h].sizeBytes == 0
    && exists i :: 0 <= i < |stepOrder| && p[stepOrder[i]] == StepEntry(h, r.msgIn[h].moduleId)
  }

  /** `a` and `b` agree at `h`: both lack it, or both hold the same entry. */
  predicate SameAt(a: Table, b: Table, h: Handle) {
    (h in a <==> h in b) && (h in a ==> a[h] == b[h])
  }

  /**
   * After the insertion loop every step handle has a fresh entry in all
   * three tables, and every other handle is as it was.
   */
  lemma {:induction false} InsertStepsSpec(t: Tables, p: map<string, StepEntry>, stepOrder: seq<string>, h: Handle)
    requires forall n :: n in stepOrder ==> n in p
    ensures IsStepHandle(p, stepOrder, h) ==> FreshFor(InsertSteps(t, p, stepOrder), p, stepOrder, h)
    ensures !IsStepHandle(p, stepOrder, h) ==>
              var r := InsertSteps(t, p, stepOrder);
              SameAt(r.msgIn, t.msgIn, h) && SameAt(r.msgOut, t.msgOut, h) && SameAt(r.errors, t.errors, h)
    decreases |stepOrder|
  {
    if |stepOrder| > 0 {
      var n := |stepOrder| - 1;
      var pre := stepOrder[..n];
      assert forall i :: 0 <= i < n ==> pre[i] == stepOrder[i];
      InsertStepsSpec(t, p, pre, h);
      var e := p[stepOrder[n]];
      var r := InsertSteps(t, p, stepOrder);
      if e.handle == h {
        assert r.msgIn[h] == FreshMetric(e.id);
        assert p[stepOrder[n]] == StepEntry(h, r.msgIn[h].moduleId);
      } else if IsStepHandle(p, pre, h) {
        var i :| 0 <= i < n && p[pre[i]] == StepEntry(h, InsertSteps(t, p, pre).msgIn[h].moduleId);
        assert p[stepOrder[i]] == StepEntry(h, r.msgIn[h].moduleId);
      }
    }
  }

  /** Insertion keeps the three tables tracking the same handles. */
  lemma {:induction false} InsertStepsAligned(t: Tables, p: map<string, StepEntry>, stepOrder: seq<string>)
    requires forall n :: n in stepOrder ==> n in p
    requires Aligned(t)
    ensures Aligned(InsertSteps(t, p, stepOrder))
    decreases |stepOrder|
  {
    if |stepOrder| > 0 {
      InsertStepsAligned(t, p, stepOrder[..|stepOrder| - 1]);
    }
  }

  // ---------------------------------------------------------------------------
  // init

  /** The outcome of locking each table: `Some(e)` when the lock is poisoned with error `e`. */
  datatype LockErrors = LockErrors(msgIn: Option<string>, msgOut: Option<string>, errors: Option<string>)

  /**
   * init: the three locks are taken in order and the first poisoned one is
   * reported; then the step parameters are parsed in `keyOrder` and the
   * steps inserted in `stepOrder`. A handle parameter that is not a `u32`
   * panics.
   */
  function Init(t: Tables, store: ParamStore, h: Handle, locks: LockErrors, keyOrder: seq<string>, stepOrder: seq<string>)
    : (r: Call<Tables, Result<(), string>>)
    requires IsEnumeration(keyOrder, StepConfig(store, h).Keys)
    requires ParseSteps(StepConfig(store, h), keyOrder).Some? ==>
               IsEnumeration(stepOrder, ParseSteps(StepConfig(store, h), keyOrder).value.Keys)
    ensures locks.msgIn.Some? ==> r == Returns(t, Err("Failed to obtain a pointer to MSG_IN stats: " + locks.msgIn.value))
    ensures locks.msgIn.None? && locks.msgOut.Some? ==>
              r == Returns(t, Err("Failed to obtain a pointer to MSG_OUT stats: " + locks.msgOut.value))
    ensures locks.msgIn.None? && locks.msgOut.None? && locks.errors.Some? ==>
              r == Returns(t, Err("Failed to obtain a pointer to ERRORS_NUM stats: " + locks.errors.value))
    ensures r.Panics? ==> locks == LockErrors(None, None, None)
    ensures r.Returns? && r.result.Ok? ==> locks == LockErrors(None, None, None)
    ensures r.Returns? ==> r.result.Ok? || r.state == t
  {
    if locks.msgIn.Some? then Returns(t, Err("Failed to obtain a pointer to MSG_IN stats: " + locks.msgIn.value))
    else if locks.msgOut.Some? then Returns(t, Err("Failed to obtain a pointer to MSG_OUT stats: " + locks.msgOut.value))
    else if locks.errors.Some? then Returns(t, Err("Failed to obtain a pointer to ERRORS_NUM stats: " + locks.errors.value))
    else
      match ParseSteps(StepConfig(store, h), keyOrder)
      case None => Panics("called `Result::unwrap()` on an `Err` value")
      case Some(p) => Returns(InsertSteps(t, p, stepOrder), Ok(()))
  }

  /** With no poisoned lock, init panics exactly when some `pipeline.steps.<name>.handle` value is not a `u32`. */
  lemma InitPanics(t: Tables, store: ParamStore, h: Handle, keyOrder: seq<string>, stepOrder: seq<string>)
    requires IsEnumeration(keyOrder, StepConfig(store, h).Keys)
    requires ParseSteps(StepConfig(store, h), keyOrder).Some? ==>
               IsEnumeration(stepOrder, ParseSteps(StepConfig(store, h), keyOrder).value.Keys)
    ensures Init(t, store, h, LockErrors(None, None, None), keyOrder, stepOrder).Panics? <==>
              exists k :: k in StepConfig(store, h) && BadHandle(StepConfig(store, h), k)
    ensures Init(t, store, h, LockErrors(None, None, None), keyOrder, stepOrder).Returns? ==>
              Init(t, store, h, LockErrors(None, None, None), keyOrder, stepOrder).result.Ok?
  {
    var cfg := StepConfig(store, h);
    ParseStepsPanics(cfg, keyOrder);
    if exists k :: k in cfg && BadHandle(cfg, k) {
      var k :| k in cfg && BadHandle(cfg, k);
      var i :| 0 <= i < |keyOrder| && keyOrder[i] == k;
    }
  }

  /**
   * After init, each step named by a parameter key has a fresh entry in all
   * three tables under the handle its parameters give (0 without one).
   */
  lemma InitTracksSteps(t: Tables, store: ParamStore, h: Handle, keyOrder: seq<string>, stepOrder: seq<string>, k: string)
    requires IsEnumeration(keyOrder, StepConfig(store, h).Keys)
    requires ParseSteps(StepConfig(store, h), keyOrder).Some? ==>
               IsEnumeration(stepOrder, ParseSteps(StepConfig(store, h), keyOrder).value.Keys)
    requires k in StepConfig(store, h) && StepName(k).Some?
    ensures var r := Init(t, store, h, LockErrors(None, None, None), keyOrder, stepOrder);
            r.Returns? ==>
              FreshFor(r.state, ParseSteps(StepConfig(store, h), keyOrder).value, stepOrder,
                       HandleOf(StepConfig(store, h), keyOrder, StepName(k).value))
  {
    var cfg := StepConfig(store, h);
    if ParseSteps(cfg, keyOrder).Some? {
      var p := ParseSteps(cfg, keyOrder).value;
      var name := StepName(k).value;
      var i :| 0 <= i < |keyOrder| && keyOrder[i] == k;
      ParseStepsEntries(cfg, keyOrder, name);
      var j :| 0 <= j < |stepOrder| && stepOrder[j] == name;
      assert p[stepOrder[j]].handle == HandleOf(cfg, keyOrder, name);
      InsertStepsSpec(t, p, stepOrder, HandleOf(cfg, keyOrder, name));
    }
  }

  /** After init, a handle that no step's parameters give is left as it was in every table. */
  lemma InitLeavesOthers(t: Tables, store: ParamStore, h: Handle, keyOrder: seq<string>, stepOrder: seq<string>, x: Handle)
    requires IsEnumeration(keyOrder, StepConfig(store, h).Keys)
    requires ParseSteps(StepConfig(store, h), keyOrder).Some? ==>
               IsEnumeration(stepOrder, ParseSteps(StepConfig(store, h), keyOrder).value.Keys)
    requires forall k :: k in StepConfig(store, h) && StepName(k).Some? ==>
               HandleOf(StepConfig(store, h), keyOrder, StepName(k).value) != x
    ensures var r := Init(t, store, h, LockErrors(None, None, None), keyOrder, stepOrder);
            r.Returns? ==> SameAt(r.state.msgIn, t.msgIn, x) && SameAt(r.state.msgOut, t.msgOut, x) && SameAt(r.state.errors, t.errors, x)
  {
    var cfg := StepConfig(store, h);
    if ParseSteps(cfg, keyOrder).Some? {
      var p := ParseSteps(cfg, keyOrder).value;
      if IsStepHandle(p, stepOrder, x) {
        var j :| 0 <= j < |stepOrder| && p[stepOrder[j]].handle == x;
        var name := stepOrder[j];
        ParseStepsEntries(cfg, keyOrder, name);
      }
      InsertStepsSpec(t, p, stepOrder, x);
    }
  }

  /** init keeps the three tables tracking the same handles. */
  lemma InitAligned(t: Tables, store: ParamStore, h: Handle, locks: LockErrors, keyOrder: seq<string>, stepOrder: seq<string>)
    requires IsEnumeration(keyOrder, StepConfig(store, h).Keys)
    requires ParseSteps(StepConfig(store, h), keyOrder).Some? ==>
               IsEnumeration(stepOrder, ParseSteps(StepConfig(store, h), keyOrder).value.Keys)
    requires Aligned(t)
    ensures Init(t, store, h, locks, keyOrder, stepOrder).Returns? ==> Aligned(Init(t, store, h, locks, keyOrder, stepOrder).state)
  {
    var cfg := StepConfig(store, h);
    if ParseSteps(cfg, keyOrder).Some? {
      InsertStepsAligned(t, ParseSteps(cfg, keyOrder).value, stepOrder);
    }
  }

  // ---------------------------------------------------------------------------
  // Counting records.

  /**
   * inc_stats_*: for a tracked handle the record count goes up by one and
   * the byte count by the record's content length; an untracked handle is
   * ignored.
   */
  function Inc(table: Table, h: Handle, len: nat): (r: Table)
    ensures r.Keys == table.Keys
    ensures h in table ==> r[h].moduleId == table[h].moduleId
    ensures h in table ==> r[h].num == table[h].num + 1 && r[h].sizeBytes == table[h].sizeBytes + len
    ensures forall h' :: h' in table && h' != h ==> r[h'] == table[h']
  {
    if h !in table then table
    else table[h := table[h].(num := table[h].num + 1, sizeBytes := table[h].sizeBytes + len)]
  }

  /** Counts a sequence of records, each given by its handle and content length, in order. */
  function IncAll(table: Table, records: seq<(Handle, nat)>): Table
    decreases |records|
  {
    if |records| == 0 then table
    else Inc(IncAll(table, records[..|records| - 1]), records[|records| - 1].0, records[|records| - 1].1)
  }

  /** How many of the records are for `h`. */
  function CountFor(records: seq<(Handle, nat)>, h: Handle): nat
    decreases |records|
  {
    if |records| == 0 then 0
    else CountFor(records[..|records| - 1], h) + (if records[|records| - 1].0 == h then 1 else 0)
  }

  /** The total content length of the records for `h`. */
  function BytesFor(records: seq<(Handle, nat)>, h: Handle): nat
    decreases |records|
  {
    if |records| == 0 then 0
    else BytesFor(records[..|records| - 1], h) + (if records[|records| - 1].0 == h then records[|records| - 1].1 else 0)
  }

  /**
   * After a sequence of records, a tracked handle's counters have grown by
   * exactly the number and total size of the records for it, its label is
   * unchanged, and no handle has been added or dropped.
   */
  lemma {:induction false} IncAllCounts(table: Table, records: seq<(Handle, nat)>, h: Handle)
    ensures IncAll(table, records).Keys == table.Keys
    ensures h in table ==>
              IncAll(table, records)[h] ==
              IoMetric(table[h].moduleId, table[h].num + CountFor(records, h), table[h].sizeBytes + BytesFor(records, h))
    decreases |records|
  {
    if |records| > 0 {
      IncAllCounts(table, records[..|records| - 1], h);
    }
  }
}
