/**
 * Line parsing and field combination of the Server-Sent-Events decoder:
 * `parseEventLine`, `filterUndefined` and `combineSseFields`.
 */
module SseFields {
  import opened Wrappers
  import opened SseLines

  /**
   * The record `parseEventLine` returns: `{comment}` for a comment line,
   * `{key, value}` otherwise, where `key` may be `undefined`.
   */
  datatype ParsedLine = Comment(comment: string) | Field(key: Option<string>, value: string)

  /** The characters a regular-expression `.` does not match. */
  predicate IsLineTerminator(c: char) {
    c == '\n' || c == '\r' || c == '\U{2028}' || c == '\U{2029}'
  }

  predicate NoLineTerminator(s: string) {
    forall k :: 0 <= k < |s| ==> !IsLineTerminator(s[k])
  }

  /** What a greedy `.*` matches at the start of `s`. */
  function TakeLine(s: string): (r: string)
    ensures |r| <= |s| && r == s[..|r|]
    ensures NoLineTerminator(r)
    ensures |r| < |s| ==> IsLineTerminator(s[|r|])
  {
    if s == [] || IsLineTerminator(s[0]) then ""
    else [s[0]] + TakeLine(s[1..])
  }

  /** Where a greedy `[^:]+` started at `i` stops: the next `:` or the end. */
  function KeyEnd(s: string, i: nat): (j: nat)
    requires i <= |s|
    ensures i <= j <= |s|
    ensures j == |s| || s[j] == ':'
    ensures forall k :: i <= k < j ==> s[k] != ':'
    decreases |s| - i
  {
    if i == |s| || s[i] == ':' then i else KeyEnd(s, i + 1)
  }

  /**
   * Whether the second alternative, `(?<key>[^:]+)(?:: ?(?<value>.*))?$`,
   * matches at position `i`: the key runs to the next `:` or the end, and
   * after that `:` the value must reach the end of the line.
   */
  predicate MatchesAt(s: string, i: nat) {
    && i < |s|
    && s[i] != ':'
    && (KeyEnd(s, i) == |s| || NoLineTerminator(s[KeyEnd(s, i) + 1..]))
  }

  /** The leftmost position from `i` on where the second alternative matches. */
  function FirstMatch(s: string, i: nat): (r: Option<nat>)
    requires i <= |s|
    ensures r.Some? ==> i <= r.value < |s| && MatchesAt(s, r.value)
    ensures r.Some? ==> forall k :: i <= k < r.value ==> !MatchesAt(s, k)
    ensures r.None? ==> forall k :: i <= k < |s| ==> !MatchesAt(s, k)
    decreases |s| - i
  {
    if i == |s| then None
    else if MatchesAt(s, i) then Some(i)
    else FirstMatch(s, i + 1)
  }

  /** The effect of `: ?` followed by `.*`: at most one leading space is dropped. */
  function StripOneSpace(s: string): (r: string)
    ensures s == r || s == " " + r
  {
    if |s| > 0 && s[0] == ' ' then s[1..] else s
  }

  /**
   * `parseEventLine`. `None` stands for the `TypeError` raised when the
   * pattern does not match and `.groups` is read from `null`.
   */
  function ParseEventLine(l: string): (r: Option<ParsedLine>)
    ensures r.Some? && r.value.Comment? ==> r.value.comment != "" && NoLineTerminator(r.value.comment)
    ensures r.Some? && r.value.Field? && r.value.key.Some? ==> r.value.key.value != "" && ':' !in r.value.key.value
    ensures r.Some? && r.value.Field? ==> NoLineTerminator(r.value.value)
  {
    if |l| > 0 && l[0] == ':' then
      var comment := TakeLine(l[1..]);
      if comment != "" then Some(Comment(comment)) else Some(Field(None, ""))
    else
      match FirstMatch(l, 0)
      case None => None
      case Some(i) =>
        var j := KeyEnd(l, i);
        KeyCapture(l, i);
        ValueCapture(l, j);
        Some(Field(Some(l[i..j]), if j == |l| then "" else StripOneSpace(l[j + 1..])))
  }

  /** The `key` capture is non-empty and holds no `:`. */
  lemma KeyCapture(l: string, i: nat)
    requires i <= |l| && MatchesAt(l, i)
    ensures var key := l[i..KeyEnd(l, i)]; key != "" && ':' !in key
  {
    var key := l[i..KeyEnd(l, i)];
    assert forall k :: 0 <= k < |key| ==> key[k] == l[i + k];
  }

  /** The `value` capture reaches the end of the line, so it holds no line terminator. */
  lemma ValueCapture(l: string, j: nat)
    requires j < |l| ==> NoLineTerminator(l[j + 1..])
    ensures j < |l| ==> NoLineTerminator(StripOneSpace(l[j + 1..]))
  {
    if j < |l| {
      var tail := l[j + 1..];
      var value := StripOneSpace(tail);
      assert forall k :: 0 <= k < |value| ==> value[k] == tail[|tail| - |value| + k];
    }
  }

  /** A position after which no line terminator occurs. */
  lemma {:induction false} LastTerminator(s: string, n: nat) returns (p: Option<nat>)
    requires n <= |s|
    ensures p.None? ==> NoLineTerminator(s[..n])
    ensures p.Some? ==> p.value < n && IsLineTerminator(s[p.value])
    ensures p.Some? ==> forall k :: p.value < k < n ==> !IsLineTerminator(s[k])
  {
    if n == 0 {
      p := None;
    } else if IsLineTerminator(s[n - 1]) {
      p := Some(n - 1);
    } else {
      p := LastTerminator(s, n - 1);
      if p.None? {
        assert forall k :: 0 <= k < n ==> s[..n][k] == s[k];
        assert forall k :: 0 <= k < n - 1 ==> s[..n - 1][k] == s[k];
      }
    }
  }

  /** The pattern matches every line except the empty one. */
  lemma ParseTotal(l: string)
    ensures ParseEventLine(l).None? <==> l == ""
  {
    if l != "" && l[0] != ':' {
      var p := LastTerminator(l, |l|);
      var w := if p.Some? then p.value else 0;
      assert l[..|l|] == l;
      assert MatchesAt(l, w) by {
        var j := KeyEnd(l, w);
        if j < |l| {
          var tail := l[j + 1..];
          forall k | 0 <= k < |tail|
            ensures !IsLineTerminator(tail[k])
          {
            assert tail[k] == l[j + 1 + k];
          }
        }
      }
    }
  }

  /** A line that does not start with `:` and whose value reaches the end splits at its first `:`. */
  lemma ParseFieldLine(l: string)
    requires l != "" && l[0] != ':'
    requires KeyEnd(l, 0) == |l| || NoLineTerminator(l[KeyEnd(l, 0) + 1..])
    ensures var j := KeyEnd(l, 0);
      ParseEventLine(l) == Some(Field(Some(l[..j]), if j == |l| then "" else StripOneSpace(l[j + 1..])))
  {
    assert MatchesAt(l, 0);
    assert l[0..KeyEnd(l, 0)] == l[..KeyEnd(l, 0)];
  }

  /** The key of `key:rest` ends at the `:` after `key`. */
  lemma {:induction false} KeyEndAt(s: string, n: nat, i: nat)
    requires i <= n < |s| && s[n] == ':'
    requires forall k :: i <= k < n ==> s[k] != ':'
    ensures KeyEnd(s, i) == n
    decreases n - i
  {
    if i < n {
      KeyEndAt(s, n, i + 1);
    }
  }

  /** A line `:c` with a non-empty comment text `c` is a comment. */
  lemma ParseComment(c: string)
    requires c != "" && NoLineTerminator(c)
    ensures ParseEventLine(":" + c) == Some(Comment(c))
  {
    var l := ":" + c;
    assert l[1..] == c;
    assert TakeLine(c) == c;
  }

  /** A bare `:` has an empty, hence falsy, comment: it reads as a field with no key. */
  lemma ParseBareColon()
    ensures ParseEventLine(":") == Some(Field(None, ""))
  {
    assert ":"[1..] == "";
  }

  /** A line with no `:` is a key with the empty value. */
  lemma ParseKeyOnly(key: string)
    requires key != "" && ':' !in key && NoLineTerminator(key)
    ensures ParseEventLine(key) == Some(Field(Some(key), ""))
  {
    ParseFieldLine(key);
    assert key[..|key|] == key;
  }

  /**
   * A line `key:rest` splits at its first `:`, and at most one leading
   * space is removed from the value; so `key: v` parses back to `key`, `v`.
   */
  lemma ParseKeyValue(key: string, rest: string)
    requires key != "" && ':' !in key
    requires NoLineTerminator(rest)
    ensures ParseEventLine(key + ":" + rest) == Some(Field(Some(key), StripOneSpace(rest)))
    ensures ParseEventLine(key + ": " + rest) == Some(Field(Some(key), rest))
  {
    SplitsAtFirstColon(key, rest);
    SplitsAfterSpace(key, rest);
  }

  /** `key: rest` is `key:` followed by ` rest`, whose one leading space is dropped. */
  lemma SplitsAfterSpace(key: string, rest: string)
    requires key != "" && ':' !in key
    requires NoLineTerminator(rest)
    ensures ParseEventLine(key + ": " + rest) == Some(Field(Some(key), rest))
  {
    var spaced := " " + rest;
    assert NoLineTerminator(spaced) by {
      forall k | 0 <= k < |spaced| ensures !IsLineTerminator(spaced[k]) {
        if k > 0 {
          assert spaced[k] == rest[k - 1];
        }
      }
    }
    SplitsAtFirstColon(key, spaced);
    assert key + ": " + rest == key + ":" + spaced;
    assert StripOneSpace(spaced) == rest;
  }

  lemma SplitsAtFirstColon(key: string, rest: string)
    requires key != "" && ':' !in key
    requires NoLineTerminator(rest)
    ensures ParseEventLine(key + ":" + rest) == Some(Field(Some(key), StripOneSpace(rest)))
  {
    var l := key + ":" + rest;
    assert l[..|key|] == key;
    assert l[|key| + 1..] == rest;
    forall k | 0 <= k < |key| ensures l[k] != ':' {
      assert l[k] == key[k];
    }
    KeyEndAt(l, |key|, 0);
    ParseFieldLine(l);
  }

  /**
   * A `U+2028` in the value stops the value's `.*` before the end, so the
   * match moves on to the text after the `:`: `a:b<U+2028>c` has the key
   * `b<U+2028>c` and no value.
   */
  lemma ParseLineSeparatorInValue()
    ensures ParseEventLine("a:b\U{2028}c") == Some(Field(Some("b\U{2028}c"), ""))
  {
    var l := "a:b\U{2028}c";
    assert |l| == 5 && l[0] == 'a' && l[1] == ':';
    KeyEndAt(l, 1, 0);
    assert IsLineTerminator(l[2..][1]);
    assert !MatchesAt(l, 0);
    assert !MatchesAt(l, 1);
    assert KeyEnd(l, 5) == 5;
    assert KeyEnd(l, 4) == 5;
    assert KeyEnd(l, 3) == 5;
    assert KeyEnd(l, 2) == 5;
    assert MatchesAt(l, 2);
    assert FirstMatch(l, 2) == Some(2);
    assert FirstMatch(l, 1) == Some(2);
    assert FirstMatch(l, 0) == Some(2);
    assert l[2..5] == "b\U{2028}c";
  }

  /** `parseEventLine` of a line the pattern matches. */
  function ParseLine(l: string): (f: ParsedLine)
    requires l != ""
    ensures Some(f) == ParseEventLine(l)
  {
    ParseTotal(l);
    ParseEventLine(l).value
  }

  /** `lines.map(parseEventLine)`, for lines the pattern matches. */
  function ParseAll(lines: seq<string>): (fields: seq<ParsedLine>)
    requires forall k :: 0 <= k < |lines| ==> lines[k] != ""
  {
    seq(|lines|, k requires 0 <= k < |lines| => ParseLine(lines[k]))
  }

  /** The lines parse one by one to the given records. */
  lemma ParseAllOf(lines: seq<string>, fields: seq<ParsedLine>)
    requires |lines| == |fields|
    requires forall k :: 0 <= k < |lines| ==> lines[k] != "" && ParseEventLine(lines[k]) == Some(fields[k])
    ensures ParseAll(lines) == fields
  {
  }

  /** A decoded event, as its own enumerable properties in order. */
  type SseRecord = seq<(string, string)>

  /** `filterUndefined`: keeps the properties whose value is defined, in order. */
  function FilterUndefined(obj: seq<(string, Option<string>)>): (r: SseRecord)
    ensures |r| <= |obj|
  {
    if obj == [] then []
    else
      var rest := FilterUndefined(obj[1..]);
      if obj[0].1.Some? then [(obj[0].0, obj[0].1.value)] + rest else rest
  }

  /**
   * `filterUndefined` keeps exactly the properties whose value is not
   * `undefined`.
   */
  lemma {:induction false} FilterMembers(obj: seq<(string, Option<string>)>)
    ensures forall k :: 0 <= k < |FilterUndefined(obj)| ==>
      (FilterUndefined(obj)[k].0, Some(FilterUndefined(obj)[k].1)) in obj
    ensures forall k :: 0 <= k < |obj| && obj[k].1.Some? ==> (obj[k].0, obj[k].1.value) in FilterUndefined(obj)
  {
    if obj != [] {
      FilterMembers(obj[1..]);
      var r, rest := FilterUndefined(obj), FilterUndefined(obj[1..]);
      forall k | 0 <= k < |r| ensures (r[k].0, Some(r[k].1)) in obj {
        if obj[0].1.Some? && k > 0 {
          assert r[k] == rest[k - 1];
        } else if obj[0].1.None? {
          assert r[k] == rest[k];
        }
      }
      forall k | 0 <= k < |obj| && obj[k].1.Some? ensures (obj[k].0, obj[k].1.value) in r {
        if k > 0 {
          assert obj[k] == obj[1..][k - 1];
        }
      }
    }
  }

  /** `record[key]`, `None` standing for `undefined`. */
  function Lookup(record: SseRecord, key: string): (r: Option<string>)
    ensures r.Some? ==> (key, r.value) in record
    ensures r.None? ==> forall k :: 0 <= k < |record| ==> record[k].0 != key
  {
    if record == [] then None
    else if record[0].0 == key then Some(record[0].1)
    else Lookup(record[1..], key)
  }

  /** `array.filter(p)`. */
  function Where<T>(s: seq<T>, p: T -> bool): (r: seq<T>)
    ensures |r| <= |s|
  {
    if s == [] then []
    else
      var init := Where(AllButLast(s), p);
      if p(Last(s)) then init + [Last(s)] else init
  }

  /** The values of field lines (a comment has none). */
  function Values(fields: seq<ParsedLine>): (r: seq<string>)
    ensures |r| == |fields|
    ensures forall k :: 0 <= k < |fields| && fields[k].Field? ==> r[k] == fields[k].value
  {
    if fields == [] then [] else [if fields[0].Field? then fields[0].value else ""] + Values(fields[1..])
  }

  /** `.at(-1)?.value`. */
  function LastValue(fields: seq<ParsedLine>): Option<string> {
    if fields == [] || !Last(fields).Field? then None else Some(Last(fields).value)
  }

  predicate IsNamed(f: ParsedLine, name: string) {
    f.Field? && f.key == Some(name)
  }

  predicate IsDigits(s: string) {
    |s| > 0 && forall k :: 0 <= k < |s| ==> '0' <= s[k] <= '9'
  }

  /** An `id` field whose value holds no NUL. */
  predicate IsValidId(f: ParsedLine) {
    IsNamed(f, "id") && '\0' !in f.value
  }

  predicate IsEvent(f: ParsedLine) {
    IsNamed(f, "event")
  }

  predicate IsData(f: ParsedLine) {
    IsNamed(f, "data")
  }

  /** A `retry` field whose value matches `^\d+$`. */
  predicate IsValidRetry(f: ParsedLine) {
    IsNamed(f, "retry") && IsDigits(f.value)
  }

  /** `combineSseFields`. */
  function CombineSseFields(fields: seq<ParsedLine>): (r: SseRecord)
    ensures |r| <= 4
  {
    FilterUndefined(SseFieldsObject(fields))
  }

  /** A filtered list is empty exactly when no element passes the filter. */
  lemma {:induction false} WhereNone<T>(s: seq<T>, p: T -> bool)
    ensures Where(s, p) == [] <==> forall k :: 0 <= k < |s| ==> !p(s[k])
  {
    if s != [] {
      var init := AllButLast(s);
      WhereNone(init, p);
      assert forall k :: 0 <= k < |init| ==> init[k] == s[k];
    }
  }

  /** The last element of a filtered list is the last element that passes the filter. */
  lemma {:induction false} LastWhere<T>(s: seq<T>, p: T -> bool)
    requires Where(s, p) != []
    ensures exists k ::
      0 <= k < |s| && p(s[k]) && Last(Where(s, p)) == s[k] && (forall j :: k < j < |s| ==> !p(s[j]))
  {
    var init := AllButLast(s);
    if p(Last(s)) {
      var k := |s| - 1;
      assert p(s[k]) && Last(Where(s, p)) == s[k];
    } else {
      assert Where(s, p) == Where(init, p);
      LastWhere(init, p);
      var k :| 0 <= k < |init| && p(init[k]) && Last(Where(init, p)) == init[k] &&
        (forall j :: k < j < |init| ==> !p(init[j]));
      LastWhereExtend(s, p, k);
    }
  }

  /** The witness for all but the last element still serves when the last one fails the filter. */
  lemma LastWhereExtend<T>(s: seq<T>, p: T -> bool, k: nat)
    requires 0 < |s| && !p(Last(s)) && k < |s| - 1
    requires forall j :: k < j < |s| - 1 ==> !p(AllButLast(s)[j])
    ensures forall j :: k < j < |s| ==> !p(s[j])
  {
    assert forall j :: k < j < |s| - 1 ==> AllButLast(s)[j] == s[j];
  }

  /** Filtering one more element. */
  lemma WhereSnoc<T>(s: seq<T>, x: T, p: T -> bool)
    ensures Where(s + [x], p) == if p(x) then Where(s, p) + [x] else Where(s, p)
  {
    assert AllButLast(s + [x]) == s;
  }

  /** The first value stored under `key`, `None` when absent or `undefined`. */
  function Find(obj: seq<(string, Option<string>)>, key: string): Option<string> {
    if obj == [] then None
    else if obj[0].0 == key then obj[0].1
    else Find(obj[1..], key)
  }

  predicate DistinctKeys<V>(obj: seq<(string, V)>) {
    forall i, j :: 0 <= i < j < |obj| ==> obj[i].0 != obj[j].0
  }

  /** Reading a property after `filterUndefined` reads the original property. */
  lemma {:induction false} LookupFiltered(obj: seq<(string, Option<string>)>, key: string)
    requires DistinctKeys(obj)
    ensures Lookup(FilterUndefined(obj), key) == Find(obj, key)
  {
    if obj != [] {
      LookupFiltered(obj[1..], key);
      if obj[0].0 == key && obj[0].1.None? {
        FilterMembers(obj[1..]);
        var rest := FilterUndefined(obj[1..]);
        forall k | 0 <= k < |rest| ensures rest[k].0 != key {
          var i :| 0 <= i < |obj[1..]| && obj[1..][i] == (rest[k].0, Some(rest[k].1));
          assert obj[i + 1].0 == rest[k].0;
        }
      }
    }
  }

  /** The object literal `combineSseFields` hands to `filterUndefined`. */
  function SseFieldsObject(fields: seq<ParsedLine>): (obj: seq<(string, Option<string>)>)
    ensures DistinctKeys(obj)
  {
    [
      ("id", LastValue(Where(fields, IsValidId))),
      ("type", LastValue(Where(fields, IsEvent))),
      ("data", Some(Join(Values(Where(fields, IsData))))),
      ("retry", LastValue(Where(fields, IsValidRetry)))
    ]
  }

  /** The record's value for each of its four keys. */
  lemma CombinedLookup(fields: seq<ParsedLine>)
    ensures var r := CombineSseFields(fields);
      && Lookup(r, "id") == LastValue(Where(fields, IsValidId))
      && Lookup(r, "type") == LastValue(Where(fields, IsEvent))
      && Lookup(r, "data") == Some(Join(Values(Where(fields, IsData))))
      && Lookup(r, "retry") == LastValue(Where(fields, IsValidRetry))
  {
    var obj := SseFieldsObject(fields);
    assert CombineSseFields(fields) == FilterUndefined(obj);
    LookupFiltered(obj, "id");
    LookupFiltered(obj, "type");
    LookupFiltered(obj, "data");
    LookupFiltered(obj, "retry");
    assert Find(obj, "data") == Find(obj[1..], "data") == Find(obj[1..][1..], "data") == obj[2].1;
    assert Find(obj, "retry") == Find(obj[1..], "retry") == Find(obj[1..][1..], "retry")
        == Find(obj[1..][1..][1..], "retry") == obj[3].1;
  }

  /** The keys of a combined record: `data` always, the other three at most once each. */
  lemma CombinedKeys(fields: seq<ParsedLine>)
    ensures var r := CombineSseFields(fields);
      && 1 <= |r| <= 4
      && (exists k :: 0 <= k < |r| && r[k].0 == "data")
      && forall k :: 0 <= k < |r| ==> r[k].0 in {"id", "type", "data", "retry"}
  {
    var obj := SseFieldsObject(fields);
    assert obj[2].1.Some?;
    var r := FilterUndefined(obj);
    assert r == CombineSseFields(fields);
    FilterMembers(obj);
    assert ("data", Join(Values(Where(fields, IsData)))) in r;
    forall k | 0 <= k < |r| ensures r[k].0 in {"id", "type", "data", "retry"} {
      assert (r[k].0, Some(r[k].1)) in obj;
    }
  }

  /** `data` is always present: the data values joined by `\n`, in order. */
  lemma CombinedData(fields: seq<ParsedLine>)
    ensures Lookup(CombineSseFields(fields), "data") == Some(Join(Values(Where(fields, IsData))))
  {
    CombinedLookup(fields);
  }

  /**
   * A key chosen by "last passing field" is absent exactly when no field
   * passes, and otherwise holds the value of the last field that passes.
   */
  lemma LastValueWhere(fields: seq<ParsedLine>, p: ParsedLine -> bool, v: Option<string>)
    requires forall k :: 0 <= k < |fields| && p(fields[k]) ==> fields[k].Field?
    requires v == LastValue(Where(fields, p))
    ensures v.None? <==> forall k :: 0 <= k < |fields| ==> !p(fields[k])
    ensures v.Some? ==>
      exists k :: 0 <= k < |fields| && p(fields[k]) && fields[k].value == v.value &&
        (forall j :: k < j < |fields| ==> !p(fields[j]))
  {
    WhereNone(fields, p);
    if Where(fields, p) != [] {
      LastWhere(fields, p);
      var k :| 0 <= k < |fields| && p(fields[k]) && Last(Where(fields, p)) == fields[k] &&
        (forall j :: k < j < |fields| ==> !p(fields[j]));
      assert v == Some(fields[k].value);
    }
  }

  /** `id` is the last `id` value without a NUL, and is absent when there is none. */
  lemma CombinedId(fields: seq<ParsedLine>)
    ensures var v := Lookup(CombineSseFields(fields), "id");
      && (v.None? <==> forall k :: 0 <= k < |fields| ==> !IsValidId(fields[k]))
      && (v.Some? ==>
            exists k :: 0 <= k < |fields| && IsValidId(fields[k]) && fields[k].value == v.value &&
              (forall j :: k < j < |fields| ==> !IsValidId(fields[j])))
  {
    CombinedLookup(fields);
    LastValueWhere(fields, IsValidId, Lookup(CombineSseFields(fields), "id"));
  }

  /** `type` is the last `event` value, and is absent when there is none. */
  lemma CombinedType(fields: seq<ParsedLine>)
    ensures var v := Lookup(CombineSseFields(fields), "type");
      && (v.None? <==> forall k :: 0 <= k < |fields| ==> !IsEvent(fields[k]))
      && (v.Some? ==>
            exists k :: 0 <= k < |fields| && IsEvent(fields[k]) && fields[k].value == v.value &&
              (forall j :: k < j < |fields| ==> !IsEvent(fields[j])))
  {
    CombinedLookup(fields);
    LastValueWhere(fields, IsEvent, Lookup(CombineSseFields(fields), "type"));
  }

  /** `retry` is the last all-digit `retry` value, and is absent when there is none. */
  lemma CombinedRetry(fields: seq<ParsedLine>)
    ensures var v := Lookup(CombineSseFields(fields), "retry");
      && (v.None? <==> forall k :: 0 <= k < |fields| ==> !IsValidRetry(fields[k]))
      && (v.Some? ==>
            exists k :: 0 <= k < |fields| && IsValidRetry(fields[k]) && fields[k].value == v.value &&
              (forall j :: k < j < |fields| ==> !IsValidRetry(fields[j])))
  {
    CombinedLookup(fields);
    LastValueWhere(fields, IsValidRetry, Lookup(CombineSseFields(fields), "retry"));
  }

  /** `key: value` parses to the key and the value. */
  lemma ParseFieldExample(line: string, key: string, value: string)
    requires line == key + ": " + value
    requires key != "" && ':' !in key && NoLineTerminator(value)
    ensures ParseEventLine(line) == Some(Field(Some(key), value))
  {
    ParseKeyValue(key, value);
  }

  /** The parsed lines of the example group `id: 1`, `event: foo`, `data: x`, `data: y`. */
  lemma ParseExampleGroup(lines: seq<string>)
    requires lines == ["id: 1", "event: foo", "data: x", "data: y"]
    ensures ParseAll(lines)
         == [Field(Some("id"), "1"), Field(Some("event"), "foo"), Field(Some("data"), "x"), Field(Some("data"), "y")]
  {
    var fields := [Field(Some("id"), "1"), Field(Some("event"), "foo"), Field(Some("data"), "x"), Field(Some("data"), "y")];
    forall k | 0 <= k < |lines|
      ensures lines[k] != "" && ParseEventLine(lines[k]) == Some(fields[k])
    {
      var key, value := if k == 0 then "id" else if k == 1 then "event" else "data",
                        if k == 0 then "1" else if k == 1 then "foo" else if k == 2 then "x" else "y";
      assert key + ": " + value == lines[k];
      ParseFieldExample(lines[k], key, value);
    }
    ParseAllOf(lines, fields);
  }

  /** Filtering a list of two. */
  lemma WhereTwo<T>(x0: T, x1: T, p: T -> bool)
    ensures Where([x0, x1], p) == (if p(x0) then [x0] else []) + (if p(x1) then [x1] else [])
  {
    WhereSnoc([], x0, p);
    assert [x0] == [] + [x0] && [x0, x1] == [x0] + [x1];
    WhereSnoc([x0], x1, p);
  }

  /** Filtering a list of four. */
  lemma WhereFour<T>(x0: T, x1: T, x2: T, x3: T, p: T -> bool)
    ensures Where([x0, x1, x2, x3], p)
         == Where([x0, x1], p) + (if p(x2) then [x2] else []) + (if p(x3) then [x3] else [])
  {
    assert [x0, x1, x2] == [x0, x1] + [x2] && [x0, x1, x2, x3] == [x0, x1, x2] + [x3];
    WhereSnoc([x0, x1], x2, p);
    WhereSnoc([x0, x1, x2], x3, p);
  }

  /** `filterUndefined` of the four properties, spelled out. */
  lemma FilterFour(id: Option<string>, kind: Option<string>, data: string, retry: Option<string>)
    ensures FilterUndefined([("id", id), ("type", kind), ("data", Some(data)), ("retry", retry)])
         == (if id.Some? then [("id", id.value)] else []) + (if kind.Some? then [("type", kind.value)] else [])
            + [("data", data)] + (if retry.Some? then [("retry", retry.value)] else [])
  {
    var o3: seq<(string, Option<string>)> := [("retry", retry)];
    var o2 := [("data", Some(data))] + o3;
    var o1 := [("type", kind)] + o2;
    var o0 := [("id", id)] + o1;
    assert [("id", id), ("type", kind), ("data", Some(data)), ("retry", retry)] == o0;
    FilterCons(("retry", retry), []);
    assert o3 == [("retry", retry)] + [];
    FilterCons(("data", Some(data)), o3);
    FilterCons(("type", kind), o2);
    FilterCons(("id", id), o1);
  }

  /** Filtering works property by property. */
  lemma FilterCons(x: (string, Option<string>), rest: seq<(string, Option<string>)>)
    ensures FilterUndefined([x] + rest) == (if x.1.Some? then [(x.0, x.1.value)] else []) + FilterUndefined(rest)
  {
    assert ([x] + rest)[1..] == rest;
  }

  /** The four properties of the example group, one by one. */
  lemma ExampleProperties(fields: seq<ParsedLine>)
    requires fields == [Field(Some("id"), "1"), Field(Some("event"), "foo"), Field(Some("data"), "x"), Field(Some("data"), "y")]
    ensures SseFieldsObject(fields) == [("id", Some("1")), ("type", Some("foo")), ("data", Some("x\ny")), ("retry", None)]
  {
    var f0, f1, f2, f3 := fields[0], fields[1], fields[2], fields[3];
    assert fields == [f0, f1, f2, f3];
    WhereTwo(f0, f1, IsValidId);
    WhereFour(f0, f1, f2, f3, IsValidId);
    WhereTwo(f0, f1, IsEvent);
    WhereFour(f0, f1, f2, f3, IsEvent);
    WhereTwo(f0, f1, IsData);
    WhereFour(f0, f1, f2, f3, IsData);
    WhereTwo(f0, f1, IsValidRetry);
    WhereFour(f0, f1, f2, f3, IsValidRetry);
    assert Values([f2, f3]) == ["x", "y"];
    assert Join(["y"]) == "y";
    assert ["x", "y"][1..] == ["y"];
    assert Join(["x", "y"]) == "x" + "\n" + "y" == "x\ny";
  }

  /** The group `id: 1`, `event: foo`, `data: x`, `data: y` combines to exactly `{id, type, data}`. */
  lemma CombineExample(lines: seq<string>)
    requires lines == ["id: 1", "event: foo", "data: x", "data: y"]
    ensures CombineSseFields(ParseAll(lines)) == [("id", "1"), ("type", "foo"), ("data", "x\ny")]
  {
    ParseExampleGroup(lines);
    ExampleProperties(ParseAll(lines));
    FilterFour(Some("1"), Some("foo"), "x\ny", None);
  }

  /** The two properties of the `id`-with-NUL group. */
  lemma NulIdProperties(fields: seq<ParsedLine>)
    requires fields == [Field(Some("id"), "a\0b"), Field(Some("data"), "z")]
    ensures SseFieldsObject(fields) == [("id", None), ("type", None), ("data", Some("z")), ("retry", None)]
  {
    var f0, f1 := fields[0], fields[1];
    assert f0.value[1] == '\0';
    WhereTwo(f0, f1, IsValidId);
    WhereTwo(f0, f1, IsEvent);
    WhereTwo(f0, f1, IsData);
    WhereTwo(f0, f1, IsValidRetry);
    assert Values([f1]) == ["z"];
  }

  /** An `id` value holding a NUL is ignored, so the record has no `id`. */
  lemma NulIdExample(lines: seq<string>)
    requires lines == ["id: a\0b", "data: z"]
    ensures CombineSseFields(ParseAll(lines)) == [("data", "z")]
  {
    var fields := [Field(Some("id"), "a\0b"), Field(Some("data"), "z")];
    forall k | 0 <= k < |lines|
      ensures lines[k] != "" && ParseEventLine(lines[k]) == Some(fields[k])
    {
      var key, value := if k == 0 then "id" else "data", if k == 0 then "a\0b" else "z";
      assert key + ": " + value == lines[k];
      ParseFieldExample(lines[k], key, value);
    }
    ParseAllOf(lines, fields);
    NulIdProperties(fields);
    FilterFour(None, None, "z", None);
  }
}
