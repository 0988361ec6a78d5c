/** The dotted-path settings store (`src/settings.py`): a JSON object tree
    addressed by paths such as "app.geometry", read with a default and
    written only when the value differs, creating missing intermediate
    objects. Writing the file is modelled by a ghost save counter. */
module SettingsStore {
  import opened Wrappers
  import opened PyText

  /** A JSON value; numbers are exact reals (Python compares `1 == 1.0`). */
  datatype Json = JNull | JBool(b: bool) | JNum(n: real) | JStr(s: string)
                | JArr(items: seq<Json>) | JObj(obj: map<string, Json>)

  /** Python's `==` between two decoded JSON values: booleans compare equal
      to the numbers 0 and 1, containers compare element by element. */
  predicate PyEquals(a: Json, b: Json) {
    match (a, b)
    case (JNull, JNull) => true
    case (JBool(x), JBool(y)) => x == y
    case (JBool(x), JNum(m)) => m == if x then 1.0 else 0.0
    case (JNum(m), JBool(y)) => m == if y then 1.0 else 0.0
    case (JNum(m), JNum(k)) => m == k
    case (JStr(x), JStr(y)) => x == y
    case (JArr(xs), JArr(ys)) =>
      |xs| == |ys| && forall i :: 0 <= i < |xs| ==> PyEquals(xs[i], ys[i])
    case (JObj(x), JObj(y)) =>
      x.Keys == y.Keys && forall k :: k in x ==> PyEquals(x[k], y[k])
    case _ => false
  }

  lemma {:induction false} PyEqualsReflexive(a: Json)
    ensures PyEquals(a, a)
  {
    match a
    case JArr(xs) =>
      forall i | 0 <= i < |xs| ensures PyEquals(xs[i], xs[i]) {
        PyEqualsReflexive(xs[i]);
      }
    case JObj(x) =>
      forall k | k in x ensures PyEquals(x[k], x[k]) {
        PyEqualsReflexive(x[k]);
      }
    case _ =>
  }

  /** The value reached by indexing with each key in turn, or None as soon
      as a key is missing or the value indexed is not an object (the
      KeyError and TypeError that `get` turns into its default). */
  function Lookup(t: Json, keys: seq<string>): Option<Json>
    decreases |keys|
  {
    if keys == [] then Some(t)
    else if t.JObj? && keys[0] in t.obj then Lookup(t.obj[keys[0]], keys[1..])
    else None
  }

  /** `get(path, default)`. */
  function GetValue(tree: map<string, Json>, path: string, default: Json): Json {
    match Lookup(JObj(tree), Split(path, '.'))
    case Some(v) => v
    case None => default
  }

  /** A lookup fails exactly when, at some position, the value reached so
      far is not an object holding the next key. */
  lemma {:induction false} LookupFails(t: Json, keys: seq<string>)
    ensures Lookup(t, keys).None? <==>
      exists i :: 0 <= i < |keys| && Lookup(t, keys[..i]).Some? &&
        !(Lookup(t, keys[..i]).value.JObj? && keys[i] in Lookup(t, keys[..i]).value.obj)
    decreases |keys|
  {
    if keys != [] {
      assert keys[..0] == [];
      if t.JObj? && keys[0] in t.obj {
        var sub := t.obj[keys[0]];
        LookupFails(sub, keys[1..]);
        forall i | 1 <= i <= |keys| ensures Lookup(t, keys[..i]) == Lookup(sub, keys[1..][..i - 1]) {
          assert keys[..i][0] == keys[0] && keys[..i][1..] == keys[1..][..i - 1];
        }
        if Lookup(t, keys).None? {
          var j :| 0 <= j < |keys[1..]| && Lookup(sub, keys[1..][..j]).Some? &&
            !(Lookup(sub, keys[1..][..j]).value.JObj? && keys[1..][j] in Lookup(sub, keys[1..][..j]).value.obj);
          assert keys[j + 1] == keys[1..][j];
          assert Lookup(t, keys[..j + 1]) == Lookup(sub, keys[1..][..j]);
        } else {
          forall i | 0 <= i < |keys| && Lookup(t, keys[..i]).Some?
            ensures Lookup(t, keys[..i]).value.JObj? && keys[i] in Lookup(t, keys[..i]).value.obj
          {
            if i > 0 {
              assert keys[i] == keys[1..][i - 1];
            }
          }
        }
      }
    }
  }

  /** True when a lookup result is missing or an object: a walk by `set`
      through such a value does not raise. */
  predicate AbsentOrObject(o: Option<Json>) {
    o.None? || o.value.JObj?
  }

  /** The nested assignment `set` performs after deciding to write: walk
      the keys but the last, creating `{}` for each missing one, and store
      the value under the last key; indexing a value that is not an object
      raises TypeError. */
  function Assign(t: map<string, Json>, keys: seq<string>, v: Json): Result<map<string, Json>>
    requires |keys| >= 1
    decreases |keys|
  {
    if |keys| == 1 then Ok(t[keys[0] := v])
    else
      var k := keys[0];
      var inner := if k !in t then Ok(map[]) else if t[k].JObj? then Ok(t[k].obj) else Err(TypeError);
      match inner
      case Err(e) => Err(e)
      case Ok(m) =>
        match Assign(m, keys[1..], v)
        case Err(e) => Err(e)
        case Ok(sub) => Ok(t[k := JObj(sub)])
  }

  lemma LookupStep(t: map<string, Json>, keys: seq<string>, i: nat)
    requires 1 <= i <= |keys|
    ensures Lookup(JObj(t), keys[..i]) ==
      if keys[0] in t then Lookup(t[keys[0]], keys[1..][..i - 1]) else None
  {
    assert keys[..i][0] == keys[0] && keys[..i][1..] == keys[1..][..i - 1];
  }

  /** An assignment raises exactly when some proper prefix of the path
      holds a value that is not an object. */
  lemma {:induction false} AssignSucceeds(t: map<string, Json>, keys: seq<string>, v: Json)
    requires |keys| >= 1
    ensures Assign(t, keys, v).Ok? <==>
      forall i :: 1 <= i < |keys| ==> AbsentOrObject(Lookup(JObj(t), keys[..i]))
    ensures Assign(t, keys, v).Err? ==> Assign(t, keys, v).error == TypeError
    decreases |keys|
  {
    if |keys| > 1 {
      var k := keys[0];
      forall i | 1 <= i < |keys| ensures Lookup(JObj(t), keys[..i]) ==
        if k in t then Lookup(t[k], keys[1..][..i - 1]) else None
      {
        LookupStep(t, keys, i);
      }
      assert keys[1..][..0] == [];
      if k !in t {
        var empty: map<string, Json> := map[];
        AssignSucceeds(empty, keys[1..], v);
        forall i | 1 <= i < |keys[1..]| ensures AbsentOrObject(Lookup(JObj(empty), keys[1..][..i])) {
          assert keys[1..][..i][0] !in empty;
        }
      } else if t[k].JObj? {
        var m := t[k].obj;
        AssignSucceeds(m, keys[1..], v);
        if Assign(t, keys, v).Ok? {
          forall i | 1 <= i < |keys| ensures AbsentOrObject(Lookup(JObj(t), keys[..i])) {
            if i > 1 {
              assert AbsentOrObject(Lookup(JObj(m), keys[1..][..i - 1]));
            }
          }
        } else {
          var j :| 1 <= j < |keys[1..]| && !AbsentOrObject(Lookup(JObj(m), keys[1..][..j]));
          assert !AbsentOrObject(Lookup(JObj(t), keys[..j + 1]));
        }
      } else {
        assert !AbsentOrObject(Lookup(JObj(t), keys[..1]));
      }
    }
  }

  /** After an assignment, the path leads to the value stored. */
  lemma {:induction false} AssignThenLookup(t: map<string, Json>, keys: seq<string>, v: Json)
    requires |keys| >= 1
    requires Assign(t, keys, v).Ok?
    ensures Lookup(JObj(Assign(t, keys, v).value), keys) == Some(v)
    decreases |keys|
  {
    var t2 := Assign(t, keys, v).value;
    assert keys[1..][..0] == [];
    if |keys| > 1 {
      var k := keys[0];
      var m := if k !in t then map[] else t[k].obj;
      AssignThenLookup(m, keys[1..], v);
      assert t2[k] == JObj(Assign(m, keys[1..], v).value);
    }
  }

  /** An assignment leaves every path alone that is neither a prefix nor
      an extension of the path assigned. */
  lemma {:induction false} AssignFrame(t: map<string, Json>, keys: seq<string>, v: Json, q: seq<string>)
    requires |keys| >= 1
    requires Assign(t, keys, v).Ok?
    requires !(q <= keys) && !(keys <= q)
    ensures Lookup(JObj(Assign(t, keys, v).value), q) == Lookup(JObj(t), q)
    decreases |keys|
  {
    var t2 := Assign(t, keys, v).value;
    var k := keys[0];
    if q[0] != k {
      assert q[0] in t2 <==> q[0] in t;
    } else {
      var m := if k !in t then map[] else t[k].obj;
      assert q == [k] + q[1..] && keys == [k] + keys[1..];
      AssignFrame(m, keys[1..], v, q[1..]);
      assert t2[k] == JObj(Assign(m, keys[1..], v).value);
      if k !in t {
        assert q[1..][0] !in m;
      }
    }
  }

  /** Every proper prefix of the assigned path ends on an object holding
      the next key; where the prefix was missing before, that object is a
      new one holding only the next key. */
  lemma {:induction false} AssignCreates(t: map<string, Json>, keys: seq<string>, v: Json, i: nat)
    requires |keys| >= 1 && 1 <= i < |keys|
    requires Assign(t, keys, v).Ok?
    ensures var after := Lookup(JObj(Assign(t, keys, v).value), keys[..i]);
      after.Some? && after.value.JObj? && keys[i] in after.value.obj &&
      (Lookup(JObj(t), keys[..i]).None? ==> after.value.obj.Keys == {keys[i]})
    decreases |keys|
  {
    var t2 := Assign(t, keys, v).value;
    var k := keys[0];
    var m := if k !in t then map[] else t[k].obj;
    var sub := Assign(m, keys[1..], v).value;
    assert t2[k] == JObj(sub);
    LookupStep(t2, keys, i);
    LookupStep(t, keys, i);
    if i == 1 {
      assert keys[1..][..0] == [];
      assert keys[1] == keys[1..][0];
      if |keys| == 2 {
        assert sub == m[keys[1] := v];
      } else {
        assert keys[1..][0] in sub by {
          AssignCreatesTop(m, keys[1..], v);
        }
      }
    } else {
      AssignCreates(m, keys[1..], v, i - 1);
      assert keys[i] == keys[1..][i - 1];
      if k !in t {
        assert keys[1..][..i - 1][0] !in m;
        assert Lookup(JObj(m), keys[1..][..i - 1]).None?;
      }
    }
  }

  /** The first key of an assigned path is present in the new tree, alone
      in it when the tree was empty. */
  lemma AssignCreatesTop(m: map<string, Json>, keys: seq<string>, v: Json)
    requires |keys| >= 1
    requires Assign(m, keys, v).Ok?
    ensures keys[0] in Assign(m, keys, v).value
    ensures m == map[] ==> Assign(m, keys, v).value.Keys == {keys[0]}
  {
  }

  /** What one call of `set` does. */
  datatype SetOutcome = Unchanged | Written(tree: map<string, Json>) | Raised(error: PyError)

  /** `set(path, value)`: nothing when `get(path)` already equals the value,
      otherwise the nested assignment and a save. */
  function SetSpec(t: map<string, Json>, path: string, v: Json): SetOutcome {
    if PyEquals(GetValue(t, path, JNull), v) then Unchanged
    else
      match Assign(t, Split(path, '.'), v)
      case Ok(t2) => Written(t2)
      case Err(e) => Raised(e)
  }

  /** After a `set` that does not raise, `get` of the same path returns a
      value equal to the one set: the one stored, or an equal one kept. */
  lemma {:induction false} SetThenGet(t: map<string, Json>, path: string, v: Json, default: Json)
    ensures match SetSpec(t, path, v)
      case Written(t2) => GetValue(t2, path, default) == v
      case Unchanged => PyEquals(GetValue(t, path, JNull), v)
      case Raised(e) => e == TypeError
  {
    var keys := Split(path, '.');
    if !PyEquals(GetValue(t, path, JNull), v) {
      AssignSucceeds(t, keys, v);
      if Assign(t, keys, v).Ok? {
        AssignThenLookup(t, keys, v);
      }
    }
  }

  /** `set` raises only when a proper prefix of the path holds a value that
      is not an object. */
  lemma SetRaises(t: map<string, Json>, path: string, v: Json)
    ensures var keys := Split(path, '.');
      SetSpec(t, path, v).Raised? <==>
        !PyEquals(GetValue(t, path, JNull), v) &&
        exists i :: 1 <= i < |keys| && !AbsentOrObject(Lookup(JObj(t), keys[..i]))
  {
    AssignSucceeds(t, Split(path, '.'), v);
  }

  /** `set(path, None)` on a missing path writes nothing. */
  lemma SetNoneOnMissing(t: map<string, Json>, path: string)
    requires Lookup(JObj(t), Split(path, '.')).None?
    ensures SetSpec(t, path, JNull) == Unchanged
  {
  }

  /** A `set` changes no path other than prefixes and extensions of its
      own. */
  lemma SetFrame(t: map<string, Json>, path: string, v: Json, q: seq<string>)
    requires SetSpec(t, path, v).Written?
    requires !(q <= Split(path, '.')) && !(Split(path, '.') <= q)
    ensures Lookup(JObj(SetSpec(t, path, v).tree), q) == Lookup(JObj(t), q)
  {
    AssignFrame(t, Split(path, '.'), v, q);
  }

  class Settings {
    var tree: map<string, Json>
    ghost var saves: nat

    /** The store after `_load_settings`: the tree read from the file, or
        the default tree when there is no file. */
    constructor (loaded: Option<map<string, Json>>)
      ensures loaded.Some? ==> tree == loaded.value
      ensures loaded.None? ==> BuildTree(DefaultPairs).Ok? && tree == BuildTree(DefaultPairs).value
      ensures saves == 0
    {
      if loaded.Some? {
        tree := loaded.value;
      } else {
        DefaultsReadBack();
        var built := CreateDefaultSettings();
        tree := built.value;
      }
      saves := 0;
    }

    /** `get(path, default)`: walk the keys one by one. */
    method Get(path: string, default: Json) returns (v: Json)
      ensures v == GetValue(tree, path, default)
    {
      var keys := Split(path, '.');
      var value := JObj(tree);
      var i := 0;
      while i < |keys|
        invariant 0 <= i <= |keys|
        invariant Lookup(JObj(tree), keys) == Lookup(value, keys[i..])
      {
        if value.JObj? && keys[i] in value.obj {
          value := value.obj[keys[i]];
          i := i + 1;
        } else {
          return default;
        }
      }
      return value;
    }

    /** `set(path, value)`: compare with the current value; otherwise walk
        down creating missing objects, store, rebuild the path back up and
        save. A TypeError is raised before anything is changed. */
    method Set(path: string, value: Json) returns (r: Result<()>)
      modifies this
      ensures SetSpec(old(tree), path, value).Unchanged? ==> tree == old(tree) && saves == old(saves) && r == Ok(())
      ensures SetSpec(old(tree), path, value).Written? ==>
        tree == SetSpec(old(tree), path, value).tree && saves == old(saves) + 1 && r == Ok(())
      ensures SetSpec(old(tree), path, value).Raised? ==>
        tree == old(tree) && saves == old(saves) && r == Err(SetSpec(old(tree), path, value).error)
    {
      var current := Get(path, JNull);
      if PyEquals(current, value) {
        return Ok(());
      }
      var keys := Split(path, '.');
      ghost var target := Assign(tree, keys, value);
      var stack: seq<map<string, Json>> := [];
      var cur := tree;
      var i := 0;
      while i < |keys| - 1
        invariant 0 <= i <= |keys| - 1
        invariant |stack| == i
        invariant target == Wrap(stack, keys, i, Assign(cur, keys[i..], value))
        invariant tree == old(tree) && saves == old(saves)
      {
        var key := keys[i];
        var pushed: map<string, Json>;
        var next: map<string, Json>;
        if key !in cur {
          pushed, next := cur[key := JObj(map[])], map[];
        } else if cur[key].JObj? {
          pushed, next := cur, cur[key].obj;
        } else {
          assert Assign(cur, keys[i..], value).Err?;
          WrapErr(stack, keys, i, TypeError);
          return Err(TypeError);
        }
        assert keys[i..][0] == key && keys[i..][1..] == keys[i + 1..];
        AssignStep(cur, keys[i..], value, pushed, next);
        WrapPush(stack, pushed, keys, i, Assign(next, keys[i + 1..], value));
        stack := stack + [pushed];
        cur := next;
        i := i + 1;
      }
      assert keys[i..] == [keys[i]];
      var acc := cur[keys[i] := value];
      var n := i;
      while n > 0
        invariant 0 <= n <= |stack|
        invariant target == Wrap(stack, keys, n, Ok(acc))
        invariant tree == old(tree) && saves == old(saves)
      {
        acc := stack[n - 1][keys[n - 1] := JObj(acc)];
        n := n - 1;
      }
      tree := acc;
      saves := saves + 1;
      return Ok(());
    }

    /** `all`: a copy of the whole tree. */
    method All() returns (copy: map<string, Json>)
      ensures copy == tree
    {
      copy := tree;
    }
  }

  /** Store an inner result under key `k` of `top`. */
  function Lift(top: map<string, Json>, k: string, inner: Result<map<string, Json>>): Result<map<string, Json>> {
    match inner
    case Err(e) => Err(e)
    case Ok(m) => Ok(top[k := JObj(m)])
  }

  /** One step of the walk down: assigning below `cur` is assigning below
      the next map and lifting the result back under the key. */
  lemma AssignStep(cur: map<string, Json>, keys: seq<string>, v: Json, pushed: map<string, Json>, next: map<string, Json>)
    requires |keys| >= 2
    requires keys[0] !in cur ==> pushed == cur[keys[0] := JObj(map[])] && next == map[]
    requires keys[0] in cur ==> cur[keys[0]].JObj? && pushed == cur && next == cur[keys[0]].obj
    ensures Assign(cur, keys, v) == Lift(pushed, keys[0], Assign(next, keys[1..], v))
  {
    if Assign(next, keys[1..], v).Ok? {
      var m := Assign(next, keys[1..], v).value;
      assert pushed[keys[0] := JObj(m)] == cur[keys[0] := JObj(m)];
    }
  }

  /** Put an inner result back along the first `n` keys: the inverse of
      walking down through the maps of `stack`. */
  function Wrap(stack: seq<map<string, Json>>, keys: seq<string>, n: nat,
                inner: Result<map<string, Json>>): Result<map<string, Json>>
    requires n <= |stack| && n <= |keys|
    decreases n
  {
    if n == 0 then inner
    else match inner
      case Err(e) => Err(e)
      case Ok(m) => Wrap(stack, keys, n - 1, Lift(stack[n - 1], keys[n - 1], inner))
  }

  lemma {:induction false} WrapErr(stack: seq<map<string, Json>>, keys: seq<string>, n: nat, e: PyError)
    requires n <= |stack| && n <= |keys|
    ensures Wrap(stack, keys, n, Err(e)) == Err(e)
  {
  }

  /** Wrapping one more level first is a wrap over the longer stack. */
  lemma {:induction false} WrapPush(stack: seq<map<string, Json>>, top: map<string, Json>, keys: seq<string>, n: nat,
                                    inner: Result<map<string, Json>>)
    requires n == |stack| && n < |keys|
    ensures Wrap(stack + [top], keys, n + 1, inner) == Wrap(stack, keys, n, Lift(top, keys[n], inner))
  {
    WrapPrefix(stack, top, keys, n, Lift(top, keys[n], inner));
  }

  lemma {:induction false} WrapPrefix(stack: seq<map<string, Json>>, top: map<string, Json>, keys: seq<string>, n: nat,
                                      inner: Result<map<string, Json>>)
    requires n <= |stack| && n <= |keys|
    ensures Wrap(stack + [top], keys, n, inner) == Wrap(stack, keys, n, inner)
    decreases n
  {
    if n > 0 && inner.Ok? {
      assert (stack + [top])[n - 1] == stack[n - 1];
      WrapPrefix(stack, top, keys, n - 1, Lift(stack[n - 1], keys[n - 1], inner));
    }
  }

  // ----------------------------------------------------------- defaults

  /** The default settings as (keys, value) entries, from the
      configuration constants; each path is its keys joined by dots
      ("app.font", ..., "strabismus.threshold"). */
  const DefaultEntries: seq<(seq<string>, Json)> := [
    (["app", "font"], JStr("Segoe UI")),
    (["app", "geometry"], JStr("980x600")),
    (["app", "overlay_color"], JStr("#ff0000")),
    (["app", "overlay_opacity"], JNum(64.0)),
    (["app", "show_camera"], JBool(false)),
    (["app", "mirror_effect"], JBool(true)),
    (["app", "fullscreen_alert"], JBool(true)),
    (["strabismus", "threshold"], JNum(0.50))
  ]

  /** The (path, value) pairs `_create_default_settings` walks. */
  const DefaultPairs: seq<(string, Json)> :=
    seq(|DefaultEntries|, i requires 0 <= i < |DefaultEntries| =>
      (Join(DefaultEntries[i].0, '.'), DefaultEntries[i].1))

  /** The tree built by assigning the pairs in order. */
  function BuildTree(pairs: seq<(string, Json)>): Result<map<string, Json>>
    decreases |pairs|
  {
    if pairs == [] then Ok(map[])
    else
      match BuildTree(pairs[..|pairs| - 1])
      case Err(e) => Err(e)
      case Ok(t) => Assign(t, Split(pairs[|pairs| - 1].0, '.'), pairs[|pairs| - 1].1)
  }

  /** The loop of `_create_default_settings`: assign every pair in order,
      each one walked like `set` walks its path. */
  method BuildSettings(pairs: seq<(string, Json)>) returns (r: Result<map<string, Json>>)
    ensures r == BuildTree(pairs)
  {
    var t: map<string, Json> := map[];
    var i := 0;
    while i < |pairs|
      invariant 0 <= i <= |pairs|
      invariant BuildTree(pairs[..i]) == Ok(t)
    {
      assert pairs[..i + 1][..i] == pairs[..i];
      var step := Assign(t, Split(pairs[i].0, '.'), pairs[i].1);
      assert BuildTree(pairs[..i + 1]) == step;
      if step.Err? {
        BuildErrStays(pairs, i + 1);
        return Err(step.error);
      }
      t := step.value;
      i := i + 1;
    }
    assert pairs[..i] == pairs;
    return Ok(t);
  }

  /** An error while building a prefix is the error of the whole build. */
  lemma {:induction false} BuildErrStays(pairs: seq<(string, Json)>, i: nat)
    requires i <= |pairs|
    requires BuildTree(pairs[..i]).Err?
    ensures BuildTree(pairs) == BuildTree(pairs[..i])
    decreases |pairs| - i
  {
    if i < |pairs| {
      assert pairs[..i + 1][..i] == pairs[..i];
      BuildErrStays(pairs, i + 1);
    } else {
      assert pairs[..i] == pairs;
    }
  }

  /** `_create_default_settings`. */
  method CreateDefaultSettings() returns (r: Result<map<string, Json>>)
    ensures r == BuildTree(DefaultPairs)
  {
    r := BuildSettings(DefaultPairs);
  }

  /** Every path of the list has exactly two keys. */
  predicate TwoLevel(pairs: seq<(string, Json)>) {
    forall i :: 0 <= i < |pairs| ==> |Split(pairs[i].0, '.')| == 2
  }

  /** No path occurs twice in the list. */
  predicate DistinctPaths(pairs: seq<(string, Json)>) {
    forall i, j :: 0 <= i < j < |pairs| ==> Split(pairs[i].0, '.') != Split(pairs[j].0, '.')
  }

  predicate TopObjects(t: map<string, Json>) {
    forall k :: k in t ==> t[k].JObj?
  }

  /** Building from distinct two-key paths never raises, and afterwards
      every path of the list reads back its own value. */
  lemma {:induction false} BuildTwoLevel(pairs: seq<(string, Json)>)
    requires TwoLevel(pairs) && DistinctPaths(pairs)
    ensures BuildTree(pairs).Ok? && TopObjects(BuildTree(pairs).value)
    ensures forall i :: 0 <= i < |pairs| ==>
      Lookup(JObj(BuildTree(pairs).value), Split(pairs[i].0, '.')) == Some(pairs[i].1)
    decreases |pairs|
  {
    if pairs != [] {
      var n := |pairs| - 1;
      var init := pairs[..n];
      assert TwoLevel(init) && DistinctPaths(init);
      BuildTwoLevel(init);
      var t := BuildTree(init).value;
      var keys := Split(pairs[n].0, '.');
      var v := pairs[n].1;
      assert keys == [keys[0], keys[1]];
      assert keys[1..] == [keys[1]];
      assert pairs[..n] == init;
      assert Assign(t, keys, v).Ok?;
      var t2 := Assign(t, keys, v).value;
      AssignThenLookup(t, keys, v);
      forall i | 0 <= i < n
        ensures Lookup(JObj(t2), Split(pairs[i].0, '.')) == Some(pairs[i].1)
      {
        var q := Split(pairs[i].0, '.');
        assert init[i] == pairs[i];
        assert q != keys;
        assert !(q <= keys) && !(keys <= q) by {
          assert |q| == |keys|;
        }
        AssignFrame(t, keys, v, q);
      }
    }
  }

  /** The default paths are distinct paths of two keys each. */
  lemma DefaultsShape()
    ensures TwoLevel(DefaultPairs) && DistinctPaths(DefaultPairs)
  {
    forall i | 0 <= i < |DefaultEntries|
      ensures Split(DefaultPairs[i].0, '.') == DefaultEntries[i].0
    {
      SplitJoin(DefaultEntries[i].0, '.');
    }
    DefaultKeysDistinct();
  }

  /** The default key lists have two keys each and are pairwise distinct:
      their second keys differ in length or in their first letter. */
  lemma DefaultKeysDistinct()
    ensures forall i :: 0 <= i < |DefaultEntries| ==> |DefaultEntries[i].0| == 2
    ensures forall i, j :: 0 <= i < j < |DefaultEntries| ==> DefaultEntries[i].0 != DefaultEntries[j].0
  {
    forall i, j | 0 <= i < j < |DefaultEntries|
      ensures DefaultEntries[i].0 != DefaultEntries[j].0
    {
      var a, b := DefaultEntries[i].0[1], DefaultEntries[j].0[1];
      assert |a| != |b| || a[0] != b[0];
    }
  }

  /** The default tree reads back every default pair: `get(key)` on it
      returns the configured value of that key. */
  lemma DefaultsReadBack()
    ensures BuildTree(DefaultPairs).Ok?
    ensures forall i, default :: 0 <= i < |DefaultPairs| ==>
      GetValue(BuildTree(DefaultPairs).value, DefaultPairs[i].0, default) == DefaultPairs[i].1
  {
    DefaultsShape();
    BuildTwoLevel(DefaultPairs);
  }
}
