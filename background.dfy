/**
 * The background script's own logic: the request options built by
 * `deepMerge`, the `generateUUID` identifier, and the request handler that
 * turns the decoded Server-Sent-Events stream into the values the port
 * protocol forwards.
 */
module Background {
  import opened Wrappers
  import opened JsValues
  import SseLines
  import SseGrouping
  import SseFields
  import opened SseDecoder
  import opened BackgroundConnection
  import CustomEventConnection

  function Max(a: nat, b: nat): nat {
    if a < b then b else a
  }

  // ---------------------------------------------------------------------
  // deepMerge
  // ---------------------------------------------------------------------

  /** The height of the highest object among `objects`, at least 1. */
  function Bound(objects: seq<Value>): (b: nat)
    ensures b >= 1
    ensures forall i :: 0 <= i < |objects| ==> Height(objects[i]) <= b
    ensures b == 1 || exists i :: 0 <= i < |objects| && b == Height(objects[i])
  {
    if objects == [] then 1
    else
      var init := objects[..|objects| - 1];
      assert forall i :: 0 <= i < |init| ==> init[i] == objects[i];
      Max(Bound(init), Height(objects[|objects| - 1]))
  }

  lemma BoundPrefix(objects: seq<Value>, n: nat)
    requires n <= |objects|
    ensures Bound(objects[..n]) <= Bound(objects)
  {
    var b := Bound(objects[..n]);
    if b != 1 {
      var i :| 0 <= i < n && b == Height(objects[..n][i]);
      assert objects[..n][i] == objects[i];
    }
  }

  /** What the output holds under a name is lower than the output, or is a height-1 falsy value. */
  lemma ExistingBelow(fs: Fields, key: string)
    ensures Truthy(Get(fs, key)) ==> Height(Get(fs, key)) < Height(Obj(fs))
    ensures !Truthy(Get(fs, key)) ==> Height(Get(fs, key)) == 1
  {
    if Truthy(Get(fs, key)) {
      GetBelow(fs, key);
    }
  }

  lemma BoundPair(a: Value, b: Value, m: nat)
    requires Height(a) < m && Height(b) < m && 1 < m
    ensures Bound([a, b]) < m
  {
  }

  /**
   * `deepMerge(...objects)`: the output object after every property of
   * every argument has been visited, in argument order.
   */
  function MergeAll(objects: seq<Value>): (r: Fields)
    ensures Height(Obj(r)) <= Bound(objects)
    decreases Bound(objects), 3, |objects|
  {
    if objects == [] then []
    else
      var init := objects[..|objects| - 1];
      var o := objects[|objects| - 1];
      BoundPrefix(objects, |objects| - 1);
      Into(MergeAll(init), o, |ForIn(o)|)
  }

  /**
   * The output after `for (key in o)` has visited the first `j`
   * properties of `o`, starting from `out`.
   */
  function Into(out: Fields, o: Value, j: nat): (r: Fields)
    requires j <= |ForIn(o)|
    ensures Height(Obj(r)) <= Max(Height(Obj(out)), Height(o))
    decreases Max(Height(Obj(out)), Height(o)), 2, j
  {
    if j == 0 then out
    else
      ChildBelow(o, j - 1);
      MergeProperty(Into(out, o, j - 1), o.fields[j - 1].0, o.fields[j - 1].1)
  }

  /** The loop body: `output[key]` after visiting one property `key` with value `v`. */
  function MergeProperty(acc: Fields, key: string, v: Value): (r: Fields)
    ensures Height(Obj(r)) <= Max(Height(Obj(acc)), Height(v) + 1)
    decreases Max(Height(Obj(acc)), Height(v) + 1), 1, 0
  {
    var m := Max(Height(Obj(acc)), Height(v) + 1);
    ExistingBelow(acc, key);
    BoundPair(Get(acc, key), v, m);
    PutHeight(acc, key, MergedValue(Get(acc, key), v), m);
    Put(acc, key, MergedValue(Get(acc, key), v))
  }

  /**
   * The value one property receives: the incoming one when the output's is
   * falsy, otherwise the deep merge of the two.
   */
  function MergedValue(existing: Value, v: Value): (r: Value)
    ensures Height(r) <= Bound([existing, v])
    decreases Bound([existing, v]), 4, 0
  {
    if Truthy(existing) then Obj(MergeAll([existing, v])) else v
  }

  /** `deepMerge(...objects)` as the source writes it: two nested loops and a recursive call. */
  method DeepMerge(objects: seq<Value>) returns (output: Fields)
    ensures output == MergeAll(objects)
    decreases Bound(objects)
  {
    output := [];
    for i := 0 to |objects|
      invariant output == MergeAll(objects[..i])
    {
      var o := objects[i];
      var fields := ForIn(o);
      ghost var base := output;
      OutputBelow(objects, i);
      for j := 0 to |fields|
        invariant output == Into(base, o, j)
      {
        var key, value := fields[j].0, fields[j].1;
        var existing := Get(output, key);
        VisitStep(base, o, j, output, Bound(objects));
        if !Truthy(existing) {
          output := Put(output, key, value);
        } else {
          var merged := DeepMerge([existing, value]);
          output := Put(output, key, Obj(merged));
        }
      }
      MergeNext(objects, i);
    }
    assert objects[..|objects|] == objects;
  }

  /** Before the `i`-th argument is visited, the output and the argument are no higher than every argument. */
  lemma OutputBelow(objects: seq<Value>, i: nat)
    requires i < |objects|
    ensures Height(Obj(MergeAll(objects[..i]))) <= Bound(objects)
    ensures Height(objects[i]) <= Bound(objects)
  {
    BoundPrefix(objects, i);
  }

  /**
   * Visiting property `j` of `o` stores under its name the incoming value
   * or, over a truthy one, the merge of a pair lower than the arguments.
   */
  lemma VisitStep(base: Fields, o: Value, j: nat, acc: Fields, b: nat)
    requires j < |ForIn(o)| && acc == Into(base, o, j)
    requires Height(Obj(base)) <= b && Height(o) <= b
    ensures var key, v := ForIn(o)[j].0, ForIn(o)[j].1;
      && Into(base, o, j + 1) == Put(acc, key, MergedValue(Get(acc, key), v))
      && (Truthy(Get(acc, key)) ==> Bound([Get(acc, key), v]) < b)
  {
    var key, v := ForIn(o)[j].0, ForIn(o)[j].1;
    IntoUnfold(base, o, j + 1);
    if Truthy(Get(acc, key)) {
      ChildBelow(o, j);
      GetBelow(acc, key);
      BoundPair(Get(acc, key), v, b);
    }
  }

  /** The output after one more argument. */
  lemma MergeNext(objects: seq<Value>, i: nat)
    requires i < |objects|
    ensures MergeAll(objects[..i + 1]) == Into(MergeAll(objects[..i]), objects[i], |ForIn(objects[i])|)
  {
    assert objects[..i + 1][..i] == objects[..i];
  }

  /** Before any property is visited the output is `out`. */
  lemma IntoNone(out: Fields, o: Value)
    ensures Into(out, o, 0) == out && ForIn(o)[..0] == []
  {
  }

  /** One more visited property is one more loop body. */
  lemma IntoUnfold(out: Fields, o: Value, j: nat)
    requires 1 <= j <= |ForIn(o)|
    ensures Into(out, o, j) == MergeProperty(Into(out, o, j - 1), ForIn(o)[j - 1].0, ForIn(o)[j - 1].1)
  {
  }

  /** The loop body changes the one name it visits and no other. */
  lemma PropertyGet(acc: Fields, key: string, v: Value, k: string)
    ensures k == key ==> Get(MergeProperty(acc, key, v), k) == MergedValue(Get(acc, key), v)
    ensures k != key ==> Get(MergeProperty(acc, key, v), k) == Get(acc, k)
  {
    assert MergeProperty(acc, key, v) == Put(acc, key, MergedValue(Get(acc, key), v));
  }

  /** The loop body adds at most the name it visits. */
  lemma PropertyKeys(acc: Fields, key: string, v: Value, k: string)
    ensures k in Keys(MergeProperty(acc, key, v)) <==> k in Keys(acc) || k == key
  {
    var r := MergeProperty(acc, key, v);
    assert r == Put(acc, key, MergedValue(Get(acc, key), v));
    if key !in Keys(acc) {
      assert Keys(r) == Keys(acc) + [key];
    }
  }

  /** The loop body keeps every name distinct. */
  lemma PropertyDistinct(acc: Fields, key: string, v: Value)
    requires DistinctKeys(acc)
    ensures DistinctKeys(MergeProperty(acc, key, v))
  {
    assert MergeProperty(acc, key, v) == Put(acc, key, MergedValue(Get(acc, key), v));
    PutDistinct(acc, key, MergedValue(Get(acc, key), v));
  }

  /** Which names the output holds: those of `out` and those visited. */
  lemma {:induction false} IntoKeys(out: Fields, o: Value, j: nat, k: string)
    requires j <= |ForIn(o)|
    ensures k in Keys(Into(out, o, j)) <==> k in Keys(out) || k in Keys(ForIn(o)[..j])
    decreases j
  {
    if j == 0 {
      IntoNone(out, o);
    } else {
      IntoKeys(out, o, j - 1, k);
      IntoKeysStep(out, o, j, k);
    }
  }

  lemma IntoKeysStep(out: Fields, o: Value, j: nat, k: string)
    requires 0 < j <= |ForIn(o)|
    requires k in Keys(Into(out, o, j - 1)) <==> k in Keys(out) || k in Keys(ForIn(o)[..j - 1])
    ensures k in Keys(Into(out, o, j)) <==> k in Keys(out) || k in Keys(ForIn(o)[..j])
  {
    var fs := ForIn(o);
    var acc, key, v := Into(out, o, j - 1), fs[j - 1].0, fs[j - 1].1;
    PropertyKeys(acc, key, v, k);
    KeysSnoc(fs, j);
    IntoUnfold(out, o, j);
    assert Into(out, o, j) == MergeProperty(acc, key, v);
  }

  lemma {:induction false} IntoDistinct(out: Fields, o: Value, j: nat)
    requires j <= |ForIn(o)| && DistinctKeys(out)
    ensures DistinctKeys(Into(out, o, j))
    decreases j
  {
    if j > 0 {
      IntoDistinct(out, o, j - 1);
      PropertyDistinct(Into(out, o, j - 1), o.fields[j - 1].0, o.fields[j - 1].1);
      IntoUnfold(out, o, j);
    }
  }

  /**
   * What a name holds once the first `j` properties of `o` are visited:
   * its old value, or the merge with the incoming value once the property
   * of that name has been visited.
   */
  function Visited(out: Fields, o: Value, j: nat, k: string): Value
    requires j <= |ForIn(o)|
  {
    var f := Find(ForIn(o), k);
    if f < j then MergedValue(Get(out, k), ForIn(o)[f].1) else Get(out, k)
  }

  /** What a name holds after the visit, when the visited object's names are distinct. */
  lemma {:induction false} IntoGet(out: Fields, o: Value, j: nat, k: string)
    requires j <= |ForIn(o)| && DistinctKeys(ForIn(o))
    ensures Get(Into(out, o, j), k) == Visited(out, o, j, k)
    decreases j
  {
    if j == 0 {
      IntoNone(out, o);
    } else {
      IntoGet(out, o, j - 1, k);
      assert Get(Into(out, o, j - 1), k) == Visited(out, o, j - 1, k);
      IntoGetStep(out, o, j, k);
    }
  }

  lemma IntoGetStep(out: Fields, o: Value, j: nat, k: string)
    requires 0 < j <= |ForIn(o)| && DistinctKeys(ForIn(o))
    requires Get(Into(out, o, j - 1), k) == Visited(out, o, j - 1, k)
    ensures Get(Into(out, o, j), k) == Visited(out, o, j, k)
  {
    var fs := ForIn(o);
    var f := Find(fs, k);
    var key, v := fs[j - 1].0, fs[j - 1].1;
    assert key == k <==> f == j - 1 by {
      if key == k && f > j - 1 {
        FindFirst(fs, k, j - 1);
      }
    }
    var acc := Into(out, o, j - 1);
    PropertyGet(acc, key, v, k);
    IntoUnfold(out, o, j);
  }

  /** Visiting an object with distinct names into an empty output copies it. */
  lemma {:induction false} IntoEmptyCopies(o: Value, j: nat)
    requires j <= |ForIn(o)| && DistinctKeys(ForIn(o))
    ensures Into([], o, j) == ForIn(o)[..j]
    decreases j
  {
    if j > 0 {
      IntoEmptyCopies(o, j - 1);
      IntoEmptyStep(o, j);
    }
  }

  lemma IntoEmptyStep(o: Value, j: nat)
    requires 0 < j <= |ForIn(o)| && DistinctKeys(ForIn(o))
    requires Into([], o, j - 1) == ForIn(o)[..j - 1]
    ensures Into([], o, j) == ForIn(o)[..j]
  {
    var fs := ForIn(o);
    IntoUnfold([], o, j);
    AppendNew(fs, j);
  }

  /** The next property of an object with distinct names is new to the prefix before it. */
  lemma AppendNew(fs: Fields, j: nat)
    requires 0 < j <= |fs| && DistinctKeys(fs)
    ensures MergeProperty(fs[..j - 1], fs[j - 1].0, fs[j - 1].1) == fs[..j]
  {
    var acc, key, v := fs[..j - 1], fs[j - 1].0, fs[j - 1].1;
    assert key !in Keys(acc) by {
      forall m | 0 <= m < |acc|
        ensures Keys(acc)[m] != key
      {
        assert acc[m] == fs[m];
      }
    }
    PropertyNew(acc, key, v);
    assert acc + [(key, v)] == fs[..j];
  }

  /** `deepMerge(o)` is a shallow copy of `o`. */
  lemma CopyOne(o: Value)
    requires DistinctKeys(ForIn(o))
    ensures MergeAll([o]) == ForIn(o)
  {
    assert [o][..0] == [];
    assert MergeAll([o]) == Into([], o, |ForIn(o)|);
    IntoEmptyCopies(o, |ForIn(o)|);
    assert ForIn(o)[..|ForIn(o)|] == ForIn(o);
  }

  /** The last argument's visit, from the output of the earlier ones. */
  lemma MergeUnfold(objects: seq<Value>, o: Value)
    ensures MergeAll(objects + [o]) == Into(MergeAll(objects), o, |ForIn(o)|)
  {
    var all := objects + [o];
    assert all[..|all| - 1] == objects;
  }

  /**
   * One more argument, property by property: a name it lacks keeps its
   * value, a name it has gets the incoming value over a falsy one and the
   * deep merge over a truthy one.
   */
  lemma MergeStep(objects: seq<Value>, o: Value, k: string)
    requires DistinctKeys(ForIn(o))
    ensures k !in Keys(ForIn(o)) ==> Get(MergeAll(objects + [o]), k) == Get(MergeAll(objects), k)
    ensures k in Keys(ForIn(o)) ==>
      Get(MergeAll(objects + [o]), k) == MergedValue(Get(MergeAll(objects), k), Get(ForIn(o), k))
  {
    MergeUnfold(objects, o);
    IntoGet(MergeAll(objects), o, |ForIn(o)|, k);
    FindKeys(ForIn(o), k);
  }

  /** Some argument has a property named `k`. */
  predicate InSome(objects: seq<Value>, k: string) {
    exists i :: 0 <= i < |objects| && k in Keys(ForIn(objects[i]))
  }

  /** Some argument before the last, or the last one, has the name. */
  lemma InSomeLast(objects: seq<Value>, k: string)
    requires objects != []
    ensures var n := |objects| - 1;
      InSome(objects, k) <==> InSome(objects[..n], k) || k in Keys(ForIn(objects[n]))
  {
    var n := |objects| - 1;
    var init := objects[..n];
    if InSome(objects, k) && !(k in Keys(ForIn(objects[n]))) {
      var i :| 0 <= i < |objects| && k in Keys(ForIn(objects[i]));
      assert init[i] == objects[i];
    }
    if InSome(init, k) {
      var i :| 0 <= i < |init| && k in Keys(ForIn(init[i]));
      assert objects[i] == init[i];
    }
  }

  /** The output holds exactly the names found in some argument, each once. */
  lemma {:induction false} MergeKeys(objects: seq<Value>, k: string)
    ensures DistinctKeys(MergeAll(objects))
    ensures k in Keys(MergeAll(objects)) <==> InSome(objects, k)
    decreases |objects|
  {
    if objects != [] {
      MergeKeys(objects[..|objects| - 1], k);
      MergeKeysStep(objects, k);
    }
  }

  lemma MergeKeysStep(objects: seq<Value>, k: string)
    requires objects != []
    requires DistinctKeys(MergeAll(objects[..|objects| - 1]))
    requires k in Keys(MergeAll(objects[..|objects| - 1])) <==> InSome(objects[..|objects| - 1], k)
    ensures DistinctKeys(MergeAll(objects))
    ensures k in Keys(MergeAll(objects)) <==> InSome(objects, k)
  {
    var n := |objects| - 1;
    var fs := ForIn(objects[n]);
    IntoKeys(MergeAll(objects[..n]), objects[n], |fs|, k);
    IntoDistinct(MergeAll(objects[..n]), objects[n], |fs|);
    InSomeLast(objects, k);
    assert fs[..|fs|] == fs;
  }

  /** `authedRequest(key)`. */
  function AuthedRequest(key: string): Value {
    AuthedShape(Str("https://chat.openai.com/"), Obj([("Authorization", Str("Bearer " + key))]))
  }

  /** `completionRequest(payload)`, the payload already serialised to `body`. */
  function CompletionRequest(body: string): Value {
    CompletionShape(Str("https://chat.openai.com/backend-api/conversation"),
                    Obj([("Accept", Str("text/event-stream")), ("Content-Type", Str("application/json"))]),
                    Str("POST"), Str(body))
  }

  /** The options `fetchSummary` passes to `fetch`. */
  function SummaryRequest(key: string, body: string, signal: Value): Fields {
    MergeAll([AuthedRequest(key), CompletionRequest(body), Obj([("signal", signal)])])
  }

  /** A name not yet in the output is appended with the incoming value. */
  lemma PropertyNew(acc: Fields, key: string, v: Value)
    requires key !in Keys(acc)
    ensures MergeProperty(acc, key, v) == acc + [(key, v)]
  {
    assert MergeProperty(acc, key, v) == Put(acc, key, MergedValue(Get(acc, key), v));
  }

  /** Reading a name back from an object whose names are distinct. */
  lemma GetAt(fs: Fields, i: nat)
    requires DistinctKeys(fs) && i < |fs|
    ensures fs[i].0 in Keys(fs) && Get(fs, fs[i].0) == fs[i].1
  {
    assert Keys(fs)[i] == fs[i].0;
    FindIs(fs, fs[i].0, i);
  }

  /** The shape of `authedRequest`: a referrer and a `headers` object. */
  function AuthedShape(referrer: Value, auth: Value): Value {
    Obj([("referrer", referrer), ("headers", auth)])
  }

  /** The shape of `completionRequest`: url, `headers`, method and body. */
  function CompletionShape(url: Value, content: Value, verb: Value, body: Value): Value {
    Obj([("url", url), ("headers", content), ("method", verb), ("body", body)])
  }

  /** `deepMerge(a, c)`: `c` visited from a copy of `a`. */
  lemma PairMerge(a: Value, c: Value)
    requires DistinctKeys(ForIn(a))
    ensures MergeAll([a, c]) == Into(ForIn(a), c, |ForIn(c)|)
  {
    CopyOne(a);
    MergeUnfold([a], c);
    assert [a] + [c] == [a, c];
  }

  /** `deepMerge(a, c)` under one name, for arguments whose names are distinct. */
  lemma PairGet(a: Value, c: Value, k: string)
    requires DistinctKeys(ForIn(a)) && DistinctKeys(ForIn(c))
    ensures Get(MergeAll([a, c]), k) ==
      if k in Keys(ForIn(c)) then MergedValue(Get(ForIn(a), k), Get(ForIn(c), k)) else Get(ForIn(a), k)
  {
    CopyOne(a);
    assert [a] + [c] == [a, c];
    MergeStep([a], c, k);
  }

  /** The names of `authedRequest` and what each holds. */
  lemma AuthedFields(referrer: Value, auth: Value, k: string)
    ensures DistinctKeys(ForIn(AuthedShape(referrer, auth)))
    ensures Get(ForIn(AuthedShape(referrer, auth)), k) ==
      if k == "referrer" then referrer else if k == "headers" then auth else Undefined
  {
    var fs := ForIn(AuthedShape(referrer, auth));
    assert Keys(fs) == ["referrer", "headers"];
    if k == "referrer" {
      GetAt(fs, 0);
    } else if k == "headers" {
      GetAt(fs, 1);
    }
  }

  /** The names of `completionRequest` and what each holds. */
  lemma CompletionFields(url: Value, content: Value, verb: Value, body: Value, k: string)
    ensures DistinctKeys(ForIn(CompletionShape(url, content, verb, body)))
    ensures k in Keys(ForIn(CompletionShape(url, content, verb, body))) <==> k in ["url", "headers", "method", "body"]
    ensures Get(ForIn(CompletionShape(url, content, verb, body)), k) ==
      if k == "url" then url else if k == "headers" then content
      else if k == "method" then verb else if k == "body" then body else Undefined
  {
    var fs := ForIn(CompletionShape(url, content, verb, body));
    assert Keys(fs) == ["url", "headers", "method", "body"];
    if k == "url" {
      GetAt(fs, 0);
    } else if k == "headers" {
      GetAt(fs, 1);
    } else if k == "method" {
      GetAt(fs, 2);
    } else if k == "body" {
      GetAt(fs, 3);
    }
  }

  /** Merging the first two shapes: the `headers` objects are merged, the rest is copied. */
  lemma TwoShapes(referrer: Value, auth: Value, url: Value, content: Value, verb: Value, body: Value, k: string)
    requires auth.Obj?
    ensures Get(MergeAll([AuthedShape(referrer, auth), CompletionShape(url, content, verb, body)]), k) ==
      if k == "headers" then Obj(MergeAll([auth, content]))
      else if k == "url" then url else if k == "method" then verb else if k == "body" then body
      else if k == "referrer" then referrer else Undefined
  {
    var a, c := AuthedShape(referrer, auth), CompletionShape(url, content, verb, body);
    AuthedFields(referrer, auth, k);
    CompletionFields(url, content, verb, body, k);
    PairGet(a, c, k);
  }

  /** Then `{ signal }`: the signal is added and nothing else changes. */
  lemma ThreeShapes(referrer: Value, auth: Value, url: Value, content: Value, verb: Value, body: Value, signal: Value, k: string)
    requires auth.Obj?
    ensures Get(MergeAll([AuthedShape(referrer, auth), CompletionShape(url, content, verb, body), Obj([("signal", signal)])]), k) ==
      if k == "headers" then Obj(MergeAll([auth, content]))
      else if k == "url" then url else if k == "method" then verb else if k == "body" then body
      else if k == "referrer" then referrer else if k == "signal" then signal else Undefined
  {
    var a, c, s := AuthedShape(referrer, auth), CompletionShape(url, content, verb, body), Obj([("signal", signal)]);
    TwoShapes(referrer, auth, url, content, verb, body, k);
    assert [a, c] + [s] == [a, c, s];
    assert Keys(ForIn(s)) == ["signal"];
    GetAt(ForIn(s), 0);
    MergeStep([a, c], s, k);
  }

  /** Visiting an object whose two names are both new appends its two properties. */
  lemma IntoTwoNew(out: Fields, n2: string, v2: Value, n3: string, v3: Value)
    requires n2 !in Keys(out) && n3 !in Keys(out) && n2 != n3
    ensures Into(out, Obj([(n2, v2), (n3, v3)]), 2) == out + [(n2, v2), (n3, v3)]
  {
    var o := Obj([(n2, v2), (n3, v3)]);
    IntoNone(out, o);
    IntoUnfold(out, o, 1);
    PropertyNew(out, n2, v2);
    var mid := out + [(n2, v2)];
    assert Keys(mid) == Keys(out) + [n2];
    IntoUnfold(out, o, 2);
    PropertyNew(mid, n3, v3);
    assert mid + [(n3, v3)] == out + [(n2, v2), (n3, v3)];
  }

  /** Two `headers` objects with distinct names: the first one's header, then the second one's two. */
  lemma HeadersShape(n1: string, v1: Value, n2: string, v2: Value, n3: string, v3: Value)
    requires n1 != n2 && n1 != n3 && n2 != n3
    ensures MergeAll([Obj([(n1, v1)]), Obj([(n2, v2), (n3, v3)])]) == [(n1, v1), (n2, v2), (n3, v3)]
  {
    PairMerge(Obj([(n1, v1)]), Obj([(n2, v2), (n3, v3)]));
    assert Keys([(n1, v1)]) == [n1];
    IntoTwoNew([(n1, v1)], n2, v2, n3, v3);
  }

  /**
   * The options `fetchSummary` builds: the two `headers` objects are merged
   * rather than one replacing the other, and every other option is kept.
   */
  lemma SummaryRequestOptions(key: string, body: string, signal: Value, k: string)
    ensures Get(SummaryRequest(key, body, signal), k) ==
      if k == "headers" then
        Obj([("Authorization", Str("Bearer " + key)),
             ("Accept", Str("text/event-stream")),
             ("Content-Type", Str("application/json"))])
      else if k == "url" then Str("https://chat.openai.com/backend-api/conversation")
      else if k == "method" then Str("POST")
      else if k == "body" then Str(body)
      else if k == "referrer" then Str("https://chat.openai.com/")
      else if k == "signal" then signal
      else Undefined
  {
    var auth := Obj([("Authorization", Str("Bearer " + key))]);
    var content := Obj([("Accept", Str("text/event-stream")), ("Content-Type", Str("application/json"))]);
    ThreeShapes(Str("https://chat.openai.com/"), auth, Str("https://chat.openai.com/backend-api/conversation"),
                content, Str("POST"), Str(body), signal, k);
    if k == "headers" {
      HeadersShape("Authorization", Str("Bearer " + key), "Accept", Str("text/event-stream"),
                   "Content-Type", Str("application/json"));
    }
  }

  // ---------------------------------------------------------------------
  // generateUUID
  // ---------------------------------------------------------------------

  /** The template `'xxxxxxxx-xxxx-4xxx-yxxx-xxxxxxxxxxxx'`, written group by group (8-4-4-4-12). */
  const UuidTemplate := "xxxxxxxx" + "-xxxx" + "-4xxx" + "-yxxx" + "-xxxxxxxxxxxx"

  predicate IsPlaceholder(c: char) {
    c == 'x' || c == 'y'
  }

  /** How many characters `/[xy]/g` matches. */
  function Placeholders(t: string): nat {
    multiset(t)['x'] + multiset(t)['y']
  }

  /** One character more in a prefix adds one when it is a placeholder. */
  lemma PlaceholdersSnoc(t: string, i: nat)
    requires i < |t|
    ensures Placeholders(t[..i + 1]) == Placeholders(t[..i]) + (if IsPlaceholder(t[i]) then 1 else 0)
  {
    assert t[..i + 1] == t[..i] + [t[i]];
  }

  /** A longer prefix holds at least as many placeholders. */
  lemma PlaceholdersPrefix(t: string, i: nat, j: nat)
    requires i <= j <= |t|
    ensures Placeholders(t[..i]) <= Placeholders(t[..j])
  {
    assert t[..j] == t[..i] + t[i..j];
  }

  /** The placeholder at `i` is matched as number `Placeholders(t[..i])`, counting from 0. */
  lemma SlotBelow(t: string, i: nat)
    requires i < |t| && IsPlaceholder(t[i])
    ensures Placeholders(t[..i]) < Placeholders(t)
  {
    PlaceholdersSnoc(t, i);
    PlaceholdersPrefix(t, i + 1, |t|);
    assert t[..|t|] == t;
  }

  /** Two distinct placeholders are matched as distinct numbers. */
  lemma SlotsDistinct(t: string, i: nat, j: nat)
    requires i < j < |t| && IsPlaceholder(t[i])
    ensures Placeholders(t[..i]) < Placeholders(t[..j])
  {
    PlaceholdersSnoc(t, i);
    PlaceholdersPrefix(t, i + 1, j);
  }

  /** Every match number is taken by some placeholder. */
  lemma {:induction false} SlotExists(t: string, k: nat)
    requires k < Placeholders(t)
    ensures exists i :: 0 <= i < |t| && IsPlaceholder(t[i]) && Placeholders(t[..i]) == k
    decreases |t|
  {
    var n := |t| - 1;
    assert t == t[..n + 1];
    PlaceholdersSnoc(t, n);
    if k < Placeholders(t[..n]) {
      SlotExists(t[..n], k);
      var i :| 0 <= i < n && IsPlaceholder(t[..n][i]) && Placeholders(t[..n][..i]) == k;
      assert t[..n][..i] == t[..i];
    }
  }

  /** `v.toString(16)` for one nibble: a lower-case hexadecimal digit. */
  function HexDigit(n: nat): (c: char)
    requires n < 16
  {
    if n < 10 then ('0' as int + n) as char else ('a' as int + n - 10) as char
  }

  predicate IsHexDigit(c: char) {
    '0' <= c <= '9' || 'a' <= c <= 'f'
  }

  /** `parseInt(c, 16)` for a lower-case digit, 16 for anything else. */
  function HexValue(c: char): (n: nat)
    ensures n <= 16
  {
    if '0' <= c <= '9' then c as int - '0' as int
    else if 'a' <= c <= 'f' then c as int - 'a' as int + 10
    else 16
  }

  lemma HexRoundTrip(n: nat)
    requires n < 16
    ensures IsHexDigit(HexDigit(n)) && HexValue(HexDigit(n)) == n
  {
  }

  /** `r & 0x3 | 0x8`: the variant nibble, the low two bits of `r` under a set high bit. */
  function Variant(r: nat): (v: nat)
    requires r < 16
    ensures 8 <= v < 12
  {
    8 + r % 4
  }

  /** The arithmetic form agrees with the bitwise one on every nibble. */
  lemma VariantIsBitwise(r: nat)
    requires r < 16
    ensures Variant(r) == (((r as bv8) & 3) | 8) as nat
  {
    if r < 4 {
      if r == 0 {} else if r == 1 {} else if r == 2 {} else {}
    } else if r < 8 {
      if r == 4 {} else if r == 5 {} else if r == 6 {} else {}
    } else if r < 12 {
      if r == 8 {} else if r == 9 {} else if r == 10 {} else {}
    } else {
      if r == 12 {} else if r == 13 {} else if r == 14 {} else {}
    }
  }

  predicate Nibbles(ns: seq<nat>) {
    forall k :: 0 <= k < |ns| ==> ns[k] < 16
  }

  /** The digit the replacer returns for the placeholder `c` and the nibble `r`. */
  function Replacement(c: char, r: nat): (d: char)
    requires r < 16
  {
    if c == 'x' then HexDigit(r) else HexDigit(Variant(r))
  }

  /**
   * The nibble the `k`-th call of the replacer draws, 0 past the end of
   * `ns` (never read by `GenerateUuid`, which supplies one per placeholder).
   */
  function Drawn(ns: seq<nat>, k: nat): (r: nat)
    requires Nibbles(ns)
    ensures r < 16
  {
    if k < |ns| then ns[k] else 0
  }

  /**
   * `t.replace(/[xy]/g, replacer)`: the placeholder at `i` is the match
   * numbered `Placeholders(t[..i])` and takes that call's digit; every other
   * character stays.
   */
  function Fill(t: string, ns: seq<nat>): (u: string)
    requires Nibbles(ns)
    ensures |u| == |t|
  {
    seq(|t|, i requires 0 <= i < |t| =>
      if IsPlaceholder(t[i]) then Replacement(t[i], Drawn(ns, Placeholders(t[..i]))) else t[i])
  }

  /** `generateUUID()`, given the 31 nibbles `Math.random() * 16 | 0` draws, in order. */
  function GenerateUuid(ns: seq<nat>): (u: string)
    requires |ns| == 31 && Nibbles(ns)
    ensures |u| == 36
  {
    Fill(UuidTemplate, ns)
  }

  /** The template asks for 31 nibbles: every one supplied is used, none is missing. */
  lemma UuidPlaceholders()
    ensures Placeholders(UuidTemplate) == 31
  {
  }

  /** A version-4, variant-1 identifier in the 8-4-4-4-12 layout, in lower case. */
  lemma UuidFormat(ns: seq<nat>)
    requires |ns| == 31 && Nibbles(ns)
    ensures var u := GenerateUuid(ns);
      && |u| == 36
      && u[8] == '-' && u[13] == '-' && u[18] == '-' && u[23] == '-'
      && u[14] == '4'
      && u[19] in "89ab"
      && forall i :: 0 <= i < 36 && UuidTemplate[i] == 'x' ==> IsHexDigit(u[i])
  {
    var t := UuidTemplate;
    assert |t| == 36;
    assert t[8] == '-' && t[13] == '-' && t[18] == '-' && t[23] == '-' && t[14] == '4' && t[19] == 'y';
    FillKeeps(t, ns, 8);
    FillKeeps(t, ns, 13);
    FillKeeps(t, ns, 18);
    FillKeeps(t, ns, 23);
    FillKeeps(t, ns, 14);
    FillVariant(t, ns, 19);
    forall i | 0 <= i < 36 && t[i] == 'x'
      ensures IsHexDigit(Fill(t, ns)[i])
    {
      FillHex(t, ns, i);
    }
  }

  /** A character that is not a placeholder is kept. */
  lemma FillKeeps(t: string, ns: seq<nat>, i: nat)
    requires Nibbles(ns) && i < |t| && !IsPlaceholder(t[i])
    ensures Fill(t, ns)[i] == t[i]
  {
  }

  /** An `x` becomes a lower-case hexadecimal digit. */
  lemma FillHex(t: string, ns: seq<nat>, i: nat)
    requires Nibbles(ns) && i < |t| && t[i] == 'x'
    ensures IsHexDigit(Fill(t, ns)[i])
  {
    HexRoundTrip(Drawn(ns, Placeholders(t[..i])));
  }

  /** A `y` becomes one of the variant digits `8`, `9`, `a`, `b`. */
  lemma FillVariant(t: string, ns: seq<nat>, i: nat)
    requires Nibbles(ns) && i < |t| && t[i] == 'y'
    ensures Fill(t, ns)[i] in "89ab"
  {
    var r := Drawn(ns, Placeholders(t[..i]));
    assert HexDigit(Variant(r)) == "89ab"[r % 4];
  }

  /** What equal digits say about the nibbles behind them: all of an `x`'s, the low two bits of a `y`'s. */
  predicate Agree(c: char, r: nat, s: nat) {
    if c == 'x' then r == s else r % 4 == s % 4
  }

  /** Equal digits from one placeholder mean agreeing nibbles, and back. */
  lemma ReplacementAgree(c: char, r: nat, s: nat)
    requires IsPlaceholder(c) && r < 16 && s < 16
    ensures Replacement(c, r) == Replacement(c, s) <==> Agree(c, r, s)
  {
    HexRoundTrip(r);
    HexRoundTrip(s);
    HexRoundTrip(Variant(r));
    HexRoundTrip(Variant(s));
  }

  /** Two fillings of one template are equal exactly when the nibbles agree at every placeholder. */
  lemma FillEqual(t: string, a: seq<nat>, b: seq<nat>)
    requires Nibbles(a) && Nibbles(b)
    ensures Fill(t, a) == Fill(t, b) <==>
      forall i :: 0 <= i < |t| && IsPlaceholder(t[i]) ==>
        Agree(t[i], Drawn(a, Placeholders(t[..i])), Drawn(b, Placeholders(t[..i])))
  {
    var u, v := Fill(t, a), Fill(t, b);
    forall i | 0 <= i < |t| && IsPlaceholder(t[i])
      ensures u[i] == v[i] <==> Agree(t[i], Drawn(a, Placeholders(t[..i])), Drawn(b, Placeholders(t[..i])))
    {
      ReplacementAgree(t[i], Drawn(a, Placeholders(t[..i])), Drawn(b, Placeholders(t[..i])));
    }
    if forall i :: 0 <= i < |t| && IsPlaceholder(t[i]) ==>
        Agree(t[i], Drawn(a, Placeholders(t[..i])), Drawn(b, Placeholders(t[..i])))
    {
      assert forall i :: 0 <= i < |t| ==> u[i] == v[i];
    }
  }

  /**
   * With a single `y`, at `p`, agreement at every placeholder is agreement
   * of every nibble but the `y`'s, and of that one's low two bits.
   */
  lemma SingleVariant(t: string, a: seq<nat>, b: seq<nat>, p: nat)
    requires Nibbles(a) && Nibbles(b) && |a| == |b| == Placeholders(t)
    requires p < |t| && t[p] == 'y' && forall i :: 0 <= i < |t| && t[i] == 'y' ==> i == p
    ensures var q := Placeholders(t[..p]);
      q < |a| &&
      ((forall i :: 0 <= i < |t| && IsPlaceholder(t[i]) ==>
          Agree(t[i], Drawn(a, Placeholders(t[..i])), Drawn(b, Placeholders(t[..i]))))
      <==> (forall k :: 0 <= k < |a| && k != q ==> a[k] == b[k]) && a[q] % 4 == b[q] % 4)
  {
    var q := Placeholders(t[..p]);
    SlotBelow(t, p);
    if forall i :: 0 <= i < |t| && IsPlaceholder(t[i]) ==>
        Agree(t[i], Drawn(a, Placeholders(t[..i])), Drawn(b, Placeholders(t[..i])))
    {
      forall k | 0 <= k < |a| && k != q
        ensures a[k] == b[k]
      {
        SlotExists(t, k);
        var i :| 0 <= i < |t| && IsPlaceholder(t[i]) && Placeholders(t[..i]) == k;
        assert Agree(t[i], Drawn(a, k), Drawn(b, k));
      }
      assert Agree(t[p], Drawn(a, q), Drawn(b, q));
    }
    if (forall k :: 0 <= k < |a| && k != q ==> a[k] == b[k]) && a[q] % 4 == b[q] % 4 {
      forall i | 0 <= i < |t| && IsPlaceholder(t[i])
        ensures Agree(t[i], Drawn(a, Placeholders(t[..i])), Drawn(b, Placeholders(t[..i])))
      {
        SlotBelow(t, i);
        if i < p {
          SlotsDistinct(t, i, p);
        } else if p < i {
          SlotsDistinct(t, p, i);
        }
      }
    }
  }

  /** The only `y` of the template is at 19, matched as number 15. */
  lemma UuidVariantSlot()
    ensures UuidTemplate[19] == 'y'
    ensures forall i :: 0 <= i < 36 && UuidTemplate[i] == 'y' ==> i == 19
    ensures Placeholders(UuidTemplate[..19]) == 15
  {
    assert UuidTemplate[..19] == "xxxxxxxx-xxxx-4xxx-";
  }

  /**
   * Two identifiers are equal exactly when the nibbles behind them agree,
   * except for the two bits the variant digit drops.
   */
  lemma UuidInjective(a: seq<nat>, b: seq<nat>)
    requires |a| == 31 && Nibbles(a) && |b| == 31 && Nibbles(b)
    ensures GenerateUuid(a) == GenerateUuid(b) <==>
      (forall k :: 0 <= k < 31 && k != 15 ==> a[k] == b[k]) && a[15] % 4 == b[15] % 4
  {
    UuidPlaceholders();
    UuidVariantSlot();
    FillEqual(UuidTemplate, a, b);
    SingleVariant(UuidTemplate, a, b, 19);
  }

  // ---------------------------------------------------------------------
  // requestHandler
  // ---------------------------------------------------------------------

  /**
   * The last stage of the request handler: each record's `data` parsed as
   * JSON, records whose `data` is missing or does not parse dropped.
   * `parse` stands for `JSON.parse`.
   */
  function ParsedData(records: seq<SseFields.SseRecord>, parse: string -> Option<Value>): (values: seq<Value>)
    ensures |values| <= |records|
  {
    if records == [] then []
    else Forwarded(records[0], parse) + ParsedData(records[1..], parse)
  }

  /** What one record contributes: its `data` parsed, when there is `data` and it parses. */
  function Forwarded(r: SseFields.SseRecord, parse: string -> Option<Value>): (values: seq<Value>)
    ensures |values| <= 1
  {
    var data := SseFields.Lookup(r, "data");
    if data.Some? && parse(data.value).Some? then [parse(data.value).value] else []
  }

  /** The stage works record by record: it commutes with concatenation. */
  lemma {:induction false} ParsedDataAppend(a: seq<SseFields.SseRecord>, b: seq<SseFields.SseRecord>, parse: string -> Option<Value>)
    ensures ParsedData(a + b, parse) == ParsedData(a, parse) + ParsedData(b, parse)
    decreases |a|
  {
    if a == [] {
      assert a + b == b;
    } else {
      ParsedDataAppend(a[1..], b, parse);
      var h := Forwarded(a[0], parse);
      assert (a + b)[0] == a[0];
      assert (a + b)[1..] == a[1..] + b;
      calc {
        ParsedData(a + b, parse);
        h + ParsedData(a[1..] + b, parse);
        h + (ParsedData(a[1..], parse) + ParsedData(b, parse));
        (h + ParsedData(a[1..], parse)) + ParsedData(b, parse);
      }
    }
  }

  /** A record is forwarded exactly when its `data` parses, and then as the parsed value. */
  lemma ParsedDataOne(r: SseFields.SseRecord, parse: string -> Option<Value>)
    ensures SseFields.Lookup(r, "data").Some? && parse(SseFields.Lookup(r, "data").value).Some? ==>
      ParsedData([r], parse) == [parse(SseFields.Lookup(r, "data").value).value]
    ensures SseFields.Lookup(r, "data").None? || parse(SseFields.Lookup(r, "data").value).None? ==>
      ParsedData([r], parse) == []
  {
    assert [r][1..] == [];
  }

  /** When every record's `data` parses, nothing is dropped and order is kept. */
  lemma {:induction false} ParsedDataAll(records: seq<SseFields.SseRecord>, parse: string -> Option<Value>)
    requires forall k :: 0 <= k < |records| ==> SseFields.Lookup(records[k], "data").Some?
    requires forall k :: 0 <= k < |records| ==> parse(SseFields.Lookup(records[k], "data").value).Some?
    ensures |ParsedData(records, parse)| == |records|
    ensures forall k :: 0 <= k < |records| ==>
      ParsedData(records, parse)[k] == parse(SseFields.Lookup(records[k], "data").value).value
    decreases |records|
  {
    if records != [] {
      ParsedDataAll(records[1..], parse);
    }
  }

  /** What the handler's stream yields for a finite response body. */
  function HandlerValues(chunks: seq<string>, parse: string -> Option<Value>): (values: seq<Value>)
    ensures |values| <= SseGrouping.CountEmpty(SseLines.Feed(chunks))
  {
    DecodeCount(chunks);
    ParsedData(Decode(chunks), parse)
  }

  /**
   * The content script hands `makeBackgroundRequest` to its custom-event
   * server as the request handler. For one request whose background
   * request ends in `outcome`, the server sends the page the streamed
   * values as `response`s, then `close` after a clean end, or `error` with
   * the reason of a rejection or of a stream error.
   */
  function Relayed(id: nat, outcome: ClientOutcome): (ms: seq<CustomEventConnection.Envelope>)
    ensures |ms| == (if outcome.Streamed? then |outcome.values| else 0) + 1
    ensures ms[|ms| - 1].kind == "close" <==> outcome.Streamed? && outcome.end == EndClosed
    ensures forall i :: 0 <= i < |ms| ==> ms[i].requestId == id
  {
    match outcome
    case Rejected(reason) => CustomEventConnection.Emission(id, [], Some(reason))
    case Streamed(values, end) =>
      CustomEventConnection.Emission(id, values, if end.EndErrored? then Some(end.reason) else None)
  }

  /**
   * What the page's fetch makes of the relay: it receives exactly the
   * streamed values; its writer closes after a clean end and errors with
   * the reason otherwise; it sends one `abort` back only after `close`.
   */
  lemma RelayedDelivery(id: nat, outcome: ClientOutcome)
    ensures var r := CustomEventConnection.Deliver(CustomEventConnection.Fresh(id), CustomEventConnection.AsEvents(Relayed(id, outcome)));
      && r.0.received == (if outcome.Streamed? then outcome.values else [])
      && r.0.writer == (match outcome
           case Rejected(reason) => CustomEventConnection.WriterErrored(reason)
           case Streamed(_, EndClosed) => CustomEventConnection.WriterClosed
           case Streamed(_, EndErrored(e)) => CustomEventConnection.WriterErrored(e))
      && r.1 == (if outcome.Streamed? && outcome.end == EndClosed then [CustomEventConnection.AbortEnvelope(id)] else [])
  {
    match outcome
    case Rejected(reason) =>
      CustomEventConnection.RoundTrip(id, [], Some(reason));
    case Streamed(values, EndClosed) =>
      CustomEventConnection.RoundTrip(id, values, None);
    case Streamed(values, EndErrored(e)) =>
      CustomEventConnection.RoundTrip(id, values, Some(e));
  }

  /**
   * A request served to the end, over both protocols in turn: the content
   * script's background request streams exactly the values the handler's
   * stream yields and then ends cleanly, and the page's fetch receives
   * those values, in order, with its writer closed.
   */
  lemma EndToEnd(id: nat, chunks: seq<string>, parse: string -> Option<Value>)
    ensures var values := HandlerValues(chunks, parse);
      var s := RunFrom(Initial(), [Resolve] + Yields(values) + [Complete]);
      var r := CustomEventConnection.Deliver(CustomEventConnection.Fresh(id),
                 CustomEventConnection.AsEvents(Relayed(id, Interpret(s.posted, Closed))));
      && Interpret(s.posted, Closed) == Streamed(values, EndClosed)
      && r.0.received == values
      && r.0.writer == CustomEventConnection.WriterClosed
  {
    var values := HandlerValues(chunks, parse);
    CompletedExchange(values);
    RelayedDelivery(id, Streamed(values, EndClosed));
  }
}
