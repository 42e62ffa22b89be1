/**
 Nested translation objects and their flat form: dotted keys mapped to texts.
 An object is the list of its fields in insertion order.
 */
module TranslationKeys {
  import opened Wrappers

  datatype Section = End | Field(name: string, value: Value, rest: Section)

  datatype Value = Text(text: string) | Sub(section: Section)

  // ----- dotted keys -----

  function Split(key: string): (parts: seq<string>)
    ensures parts != []
  {
    if key == "" then [""]
    else if key[0] == '.' then [""] + Split(key[1..])
    else
      var parts := Split(key[1..]);
      [[key[0]] + parts[0]] + parts[1..]
  }

  // How flattening extends the key of a section by the name of a field.
  function Extend(prefix: string, name: string): string {
    if prefix != "" then prefix + "." + name else name
  }

  function Full(prefix: string, path: seq<string>): string
    decreases |path|
  {
    if path == [] then prefix else Full(Extend(prefix, path[0]), path[1..])
  }

  predicate DottedPrefix(p: string, q: string) {
    p + "." <= q
  }

  // The keys a nested object can hold side by side and give back.
  predicate Recoverable(keys: set<string>) {
    && (forall k | k in keys :: k != "" ==> k[0] != '.')
    && (forall p, q | p in keys && q in keys :: !DottedPrefix(p, q))
  }

  lemma {:induction false} SplitOfDotted(p: string, r: string)
    ensures Split(p + "." + r) == Split(p) + Split(r)
  {
    if p == "" {
      assert p + "." + r == "." + r;
    } else {
      assert (p + "." + r)[1..] == p[1..] + "." + r;
      SplitOfDotted(p[1..], r);
    }
  }

  lemma {:induction false} SplitOfName(name: string)
    requires '.' !in name
    ensures Split(name) == [name]
  {
    if name != "" {
      SplitOfName(name[1..]);
      assert name == [name[0]] + name[1..];
    }
  }

  // Every key is its first segment, or its first segment, a dot and a shorter key.
  lemma {:induction false} FirstSegment(key: string) returns (name: string, rest: string)
    ensures '.' !in name
    ensures (key == name && Split(key) == [name]) || (key == name + "." + rest && Split(key) == [name] + Split(rest))
    ensures key != name ==> |rest| < |key|
  {
    if key == "" {
      name, rest := "", "";
    } else if key[0] == '.' {
      name, rest := "", key[1..];
      assert key == name + "." + rest;
    } else {
      var name', rest' := FirstSegment(key[1..]);
      name, rest := [key[0]] + name', rest';
      assert key == [key[0]] + key[1..];
    }
  }

  lemma {:induction false} FullOfSplit(prefix: string, key: string)
    requires prefix != ""
    ensures Full(prefix, Split(key)) == prefix + "." + key
    decreases |key|
  {
    var name, rest := FirstSegment(key);
    if key != name {
      assert ([name] + Split(rest))[1..] == Split(rest);
      FullOfSplit(prefix + "." + name, rest);
      assert prefix + "." + (name + "." + rest) == (prefix + "." + name) + "." + rest;
    }
  }

  lemma {:induction false} FullOfSplitAtRoot(key: string)
    ensures key == "" || key[0] != '.' ==> Full("", Split(key)) == key
    ensures Full("", Split(key)) == "" || Full("", Split(key))[0] != '.'
    decreases |key|
  {
    var name, rest := FirstSegment(key);
    if key != name {
      assert ([name] + Split(rest))[1..] == Split(rest);
      if name == "" {
        FullOfSplitAtRoot(rest);
      } else {
        FullOfSplit(name, rest);
      }
    }
  }

  lemma {:induction false} FullGrows(prefix: string, path: seq<string>)
    requires prefix != "" && path != []
    ensures DottedPrefix(prefix, Full(prefix, path))
    decreases |path|
  {
    if |path| > 1 {
      FullGrows(Extend(prefix, path[0]), path[1..]);
    }
  }

  lemma {:induction false} FullOfAppend(prefix: string, a: seq<string>, b: seq<string>)
    ensures Full(prefix, a + b) == Full(Full(prefix, a), b)
    decreases |a|
  {
    if a == [] {
      assert a + b == b;
    } else {
      assert (a + b)[1..] == a[1..] + b;
      FullOfAppend(Extend(prefix, a[0]), a[1..], b);
    }
  }

  // One key's segments start another's exactly when the keys are equal or one is the other
  // followed by a dot.
  lemma SplitPrefix(p: string, q: string)
    ensures Split(p) <= Split(q) <==> p == q || DottedPrefix(p, q)
  {
    if DottedPrefix(p, q) {
      var r := q[|p| + 1..];
      assert q == p + "." + r;
      SplitOfDotted(p, r);
    }
    if Split(p) <= Split(q) {
      SegmentsStartKey(p, q);
    }
  }

  lemma SegmentsStartKey(p: string, q: string)
    requires Split(p) <= Split(q)
    ensures p == q || DottedPrefix(p, q)
  {
    var tail := Split(q)[|Split(p)|..];
    var px, qx := "x." + p, "x." + q;
    assert qx == Full(px, tail) by {
      assert "x" + "." == "x.";
      assert Split(q) == Split(p) + tail;
      FullOfAppend("x", Split(p), tail);
      FullOfSplit("x", p);
      FullOfSplit("x", q);
    }
    assert p == px[2..] && q == qx[2..];
    if tail != [] {
      FullGrows(px, tail);
      assert p + "." == (px + ".")[2..] <= qx[2..];
    }
  }

  // ----- nested objects -----

  predicate HasField(s: Section, name: string) {
    s.Field? && (s.name == name || HasField(s.rest, name))
  }

  // No object has a field twice.
  predicate WellFormed(s: Section) {
    s.Field? ==>
      && !HasField(s.rest, s.name)
      && (s.value.Sub? ==> WellFormed(s.value.section))
      && WellFormed(s.rest)
  }

  function Find(s: Section, name: string): Option<Value> {
    if s.End? then None else if s.name == name then Some(s.value) else Find(s.rest, name)
  }

  function Put(s: Section, name: string, value: Value): Section {
    if s.End? then Field(name, value, End)
    else if s.name == name then Field(name, value, s.rest)
    else Field(s.name, s.value, Put(s.rest, name, value))
  }

  // A missing or text-valued field on the way is replaced by an empty object.
  function SetNestedValue(root: Section, parts: seq<string>, text: string): Section
    requires parts != []
    decreases |parts|
  {
    if |parts| == 1 then Put(root, parts[0], Text(text))
    else
      var next := Find(root, parts[0]);
      var child := if next.Some? && next.value.Sub? then next.value.section else End;
      Put(root, parts[0], Sub(SetNestedValue(child, parts[1..], text)))
  }

  // The text at a path of field names.
  function Get(s: Section, path: seq<string>): Option<string>
    decreases |path|
  {
    if path == [] then None
    else
      match Find(s, path[0])
      case None => None
      case Some(Text(text)) => if |path| == 1 then Some(text) else None
      case Some(Sub(section)) => Get(section, path[1..])
  }

  lemma {:induction false} FindAfterPut(s: Section, name: string, value: Value, other: string)
    ensures Find(Put(s, name, value), other) == if other == name then Some(value) else Find(s, other)
    ensures HasField(Put(s, name, value), other) <==> other == name || HasField(s, other)
  {
    if s.Field? {
      FindAfterPut(s.rest, name, value, other);
    }
  }

  lemma {:induction false} PutKeepsWellFormed(s: Section, name: string, value: Value)
    requires WellFormed(s) && (value.Sub? ==> WellFormed(value.section))
    ensures WellFormed(Put(s, name, value))
  {
    if s.Field? && s.name != name {
      PutKeepsWellFormed(s.rest, name, value);
      FindAfterPut(s.rest, name, value, s.name);
    }
  }

  lemma {:induction false} FindIsWellFormed(s: Section, name: string)
    requires WellFormed(s) && Find(s, name).Some? && Find(s, name).value.Sub?
    ensures WellFormed(Find(s, name).value.section)
  {
    if s.name != name {
      FindIsWellFormed(s.rest, name);
    }
  }

  lemma {:induction false} SetKeepsWellFormed(root: Section, parts: seq<string>, text: string)
    requires WellFormed(root) && parts != []
    ensures WellFormed(SetNestedValue(root, parts, text))
    decreases |parts|
  {
    if |parts| == 1 {
      PutKeepsWellFormed(root, parts[0], Text(text));
    } else {
      var next := Find(root, parts[0]);
      var child := if next.Some? && next.value.Sub? then next.value.section else End;
      if next.Some? && next.value.Sub? {
        FindIsWellFormed(root, parts[0]);
      }
      SetKeepsWellFormed(child, parts[1..], text);
      PutKeepsWellFormed(root, parts[0], Sub(SetNestedValue(child, parts[1..], text)));
    }
  }

  // Setting a value changes that path, wipes out every path that starts with it or that it
  // starts with, and leaves all others alone.
  lemma {:induction false} GetAfterSet(root: Section, parts: seq<string>, text: string, path: seq<string>)
    requires parts != []
    ensures Get(SetNestedValue(root, parts, text), path) ==
            if path == parts then Some(text)
            else if path <= parts || parts <= path then None
            else Get(root, path)
    decreases |parts|
  {
    if path != [] {
      if |parts| == 1 {
        FindAfterPut(root, parts[0], Text(text), path[0]);
      } else {
        var next := Find(root, parts[0]);
        var child := if next.Some? && next.value.Sub? then next.value.section else End;
        var child' := SetNestedValue(child, parts[1..], text);
        FindAfterPut(root, parts[0], Sub(child'), path[0]);
        if path[0] == parts[0] {
          GetAfterSet(child, parts[1..], text, path[1..]);
          assert path == [path[0]] + path[1..] && parts == [parts[0]] + parts[1..];
          assert path[1..] <= parts[1..] <==> path <= parts;
          assert parts[1..] <= path[1..] <==> parts <= path;
        }
      }
    }
  }

  // ----- flattening -----

  function Flatten(s: Section, prefix: string, out: map<string, string>): map<string, string> {
    match s
    case End => out
    case Field(name, Text(text), rest) => Flatten(rest, prefix, out[Extend(prefix, name) := text])
    case Field(name, Sub(section), rest) => Flatten(rest, prefix, Flatten(section, Extend(prefix, name), out))
  }

  method FlattenTranslations(value: Section, prefix: string, out: map<string, string>)
    returns (result: map<string, string>)
    ensures result == Flatten(value, prefix, out)
    decreases value
  {
    result := out;
    var cursor := value;
    while cursor.Field?
      invariant cursor == value || cursor < value
      invariant Flatten(cursor, prefix, result) == Flatten(value, prefix, out)
      decreases cursor
    {
      var fullKey := Extend(prefix, cursor.name);
      match cursor.value {
        case Text(text) => result := result[fullKey := text];
        case Sub(section) => result := FlattenTranslations(section, fullKey, result);
      }
      cursor := cursor.rest;
    }
  }

  // `key` is `text` in the flat form of `s` because of the field at some path.
  ghost predicate Contributes(s: Section, prefix: string, key: string, text: string) {
    exists path :: Get(s, path) == Some(text) && Full(prefix, path) == key
  }

  lemma ContributionOfRest(s: Section, prefix: string, key: string, text: string)
    requires s.Field? && WellFormed(s) && Contributes(s.rest, prefix, key, text)
    ensures Contributes(s, prefix, key, text)
  {
    var path :| Get(s.rest, path) == Some(text) && Full(prefix, path) == key;
    FindMeansHasField(s.rest, path[0]);
    assert Get(s, path) == Some(text);
  }

  lemma {:induction false} FindMeansHasField(s: Section, name: string)
    ensures Find(s, name).Some? <==> HasField(s, name)
  {
    if s.Field? {
      FindMeansHasField(s.rest, name);
    }
  }

  lemma ContributionOfField(s: Section, prefix: string, key: string, text: string)
    requires s.Field? && s.value.Sub? && Contributes(s.value.section, Extend(prefix, s.name), key, text)
    ensures Contributes(s, prefix, key, text)
  {
    var path :| Get(s.value.section, path) == Some(text) && Full(Extend(prefix, s.name), path) == key;
    var path' := [s.name] + path;
    assert path'[1..] == path;
    assert Get(s, path') == Some(text) && Full(prefix, path') == key;
  }

  // Flattening adds nothing but what some path contributes.
  lemma {:induction false} FlattenIsSound(s: Section, prefix: string, out: map<string, string>, key: string)
    requires WellFormed(s) && key in Flatten(s, prefix, out)
    ensures (key in out && Flatten(s, prefix, out)[key] == out[key])
         || Contributes(s, prefix, key, Flatten(s, prefix, out)[key])
  {
    if s.Field? {
      var text := Flatten(s, prefix, out)[key];
      match s.value
      case Text(t) =>
        var out' := out[Extend(prefix, s.name) := t];
        FlattenIsSound(s.rest, prefix, out', key);
        if Contributes(s.rest, prefix, key, text) {
          ContributionOfRest(s, prefix, key, text);
        } else if key == Extend(prefix, s.name) {
          assert Get(s, [s.name]) == Some(text) && Full(prefix, [s.name]) == key;
        }
      case Sub(section) =>
        var out' := Flatten(section, Extend(prefix, s.name), out);
        FlattenIsSound(s.rest, prefix, out', key);
        if Contributes(s.rest, prefix, key, text) {
          ContributionOfRest(s, prefix, key, text);
        } else {
          FlattenIsSound(section, Extend(prefix, s.name), out, key);
          if Contributes(section, Extend(prefix, s.name), key, text) {
            ContributionOfField(s, prefix, key, text);
          }
        }
    }
  }

  // Every path contributes a key, and nothing is forgotten.
  lemma {:induction false} FlattenIsComplete(s: Section, prefix: string, out: map<string, string>, path: seq<string>)
    ensures out.Keys <= Flatten(s, prefix, out).Keys
    ensures Get(s, path).Some? ==> Full(prefix, path) in Flatten(s, prefix, out)
  {
    if s.Field? {
      match s.value
      case Text(t) =>
        FlattenIsComplete(s.rest, prefix, out[Extend(prefix, s.name) := t], path);
      case Sub(section) =>
        FlattenIsComplete(s.rest, prefix, Flatten(section, Extend(prefix, s.name), out), path);
        FlattenIsComplete(section, Extend(prefix, s.name), out, if path == [] then [] else path[1..]);
    }
  }

  // ----- rebuilding the nested object of a flat one -----

  datatype Entry = Entry(key: string, text: string)

  predicate DistinctKeys(flat: seq<Entry>) {
    forall i, j | 0 <= i < j < |flat| :: flat[i].key != flat[j].key
  }

  function KeysOf(flat: seq<Entry>): set<string> {
    set e | e in flat :: e.key
  }

  function Rebuild(flat: seq<Entry>): Section {
    if flat == [] then End
    else
      var last := flat[|flat| - 1];
      SetNestedValue(Rebuild(flat[..|flat| - 1]), Split(last.key), last.text)
  }

  method BuildNestedMap(flat: seq<Entry>) returns (nested: Section)
    ensures nested == Rebuild(flat)
  {
    nested := End;
    for i := 0 to |flat|
      invariant nested == Rebuild(flat[..i])
    {
      assert flat[..i + 1][..i] == flat[..i];
      nested := SetNestedValue(nested, Split(flat[i].key), flat[i].text);
    }
    assert flat[..|flat|] == flat;
  }

  // The paths of a rebuilt object are the segments of the given keys, each with its text.
  lemma {:induction false} RebuiltPaths(flat: seq<Entry>, path: seq<string>)
    requires DistinctKeys(flat)
    ensures WellFormed(Rebuild(flat))
    ensures Get(Rebuild(flat), path).Some? ==>
              exists e :: e in flat && path == Split(e.key) && Get(Rebuild(flat), path) == Some(e.text)
    decreases |flat|
  {
    if flat != [] {
      var last, front := flat[|flat| - 1], flat[..|flat| - 1];
      RebuiltPaths(front, path);
      SetKeepsWellFormed(Rebuild(front), Split(last.key), last.text);
      GetAfterSet(Rebuild(front), Split(last.key), last.text, path);
      if path == Split(last.key) {
        assert last in flat;
      } else if Get(Rebuild(flat), path).Some? {
        var e :| e in front && path == Split(e.key) && Get(Rebuild(front), path) == Some(e.text);
        assert e in flat;
      }
    }
  }

  lemma {:induction false} RebuiltKeeps(flat: seq<Entry>, e: Entry)
    requires DistinctKeys(flat) && e in flat
    requires forall p, q | p in KeysOf(flat) && q in KeysOf(flat) :: !DottedPrefix(p, q)
    ensures Get(Rebuild(flat), Split(e.key)) == Some(e.text)
    decreases |flat|
  {
    var last, front := flat[|flat| - 1], flat[..|flat| - 1];
    assert flat == front + [last];
    GetAfterSet(Rebuild(front), Split(last.key), last.text, Split(e.key));
    if e != last {
      assert e.key in KeysOf(flat) && last.key in KeysOf(flat);
      assert KeysOf(front) <= KeysOf(flat);
      RebuiltKeeps(front, e);
      SplitPrefix(e.key, last.key);
      SplitPrefix(last.key, e.key);
    }
  }

  function FlatMap(flat: seq<Entry>): map<string, string> {
    if flat == [] then map[] else FlatMap(flat[..|flat| - 1])[flat[|flat| - 1].key := flat[|flat| - 1].text]
  }

  lemma {:induction false} FlatMapIs(flat: seq<Entry>, e: Entry)
    requires DistinctKeys(flat)
    ensures FlatMap(flat).Keys == KeysOf(flat)
    ensures e in flat ==> FlatMap(flat)[e.key] == e.text
    decreases |flat|
  {
    if flat != [] {
      var front := flat[..|flat| - 1];
      assert flat == front + [flat[|flat| - 1]];
      FlatMapIs(front, e);
      assert KeysOf(flat) == KeysOf(front) + {flat[|flat| - 1].key};
    }
  }

  // A flat map survives being nested and flattened again exactly when its keys are
  // recoverable: no key is followed by a dot in another key, and none begins with a dot.
  lemma RoundTrip(flat: seq<Entry>)
    requires DistinctKeys(flat)
    ensures Flatten(Rebuild(flat), "", map[]) == FlatMap(flat) <==> Recoverable(KeysOf(flat))
  {
    if Recoverable(KeysOf(flat)) {
      RecoverableRoundTrip(flat);
    }
    if Flatten(Rebuild(flat), "", map[]) == FlatMap(flat) {
      FlatMapIs(flat, Entry("", ""));
      RoundTripIsRecoverable(flat);
    }
  }

  lemma RecoverableRoundTrip(flat: seq<Entry>)
    requires DistinctKeys(flat) && Recoverable(KeysOf(flat))
    ensures Flatten(Rebuild(flat), "", map[]) == FlatMap(flat)
  {
    var tree := Rebuild(flat);
    var result := Flatten(tree, "", map[]);
    RebuiltPaths(flat, []);
    forall key | key in result
      ensures key in FlatMap(flat) && result[key] == FlatMap(flat)[key]
    {
      FlattenIsSound(tree, "", map[], key);
      var path :| Get(tree, path) == Some(result[key]) && Full("", path) == key;
      RebuiltPaths(flat, path);
      var e :| e in flat && path == Split(e.key) && Get(tree, path) == Some(e.text);
      assert e.key in KeysOf(flat);
      FullOfSplitAtRoot(e.key);
      FlatMapIs(flat, e);
    }
    forall key | key in FlatMap(flat)
      ensures key in result
    {
      FlatMapIs(flat, Entry("", ""));
      var e :| e in flat && e.key == key;
      RebuiltKeeps(flat, e);
      FullOfSplitAtRoot(e.key);
      FlattenIsComplete(tree, "", map[], Split(e.key));
    }
  }

  // Already keeping every key in place takes recoverable keys.
  lemma RoundTripIsRecoverable(flat: seq<Entry>)
    requires DistinctKeys(flat)
    requires KeysOf(flat) <= Flatten(Rebuild(flat), "", map[]).Keys
    ensures Recoverable(KeysOf(flat))
  {
    var tree := Rebuild(flat);
    RebuiltPaths(flat, []);
    forall key | key in KeysOf(flat)
      ensures key != "" ==> key[0] != '.'
    {
      var e := PathOfKey(flat, key);
      FullOfSplitAtRoot(e.key);
    }
    forall p, q | p in KeysOf(flat) && q in KeysOf(flat)
      ensures !DottedPrefix(p, q)
    {
      var e := PathOfKey(flat, p);
      var f := PathOfKey(flat, q);
      assert e.key in KeysOf(flat) && f.key in KeysOf(flat);
      FullOfSplitAtRoot(e.key);
      FullOfSplitAtRoot(f.key);
      assert e.key == p && f.key == q;
      SplitPrefix(p, q);
      if DottedPrefix(p, q) {
        assert p != q;
        TextHasNothingBelow(tree, Split(p), Split(q));
        assert false;
      }
    }
  }

  // A key of the flattened result comes from an entry still present in the object.
  lemma PathOfKey(flat: seq<Entry>, key: string) returns (e: Entry)
    requires DistinctKeys(flat) && key in Flatten(Rebuild(flat), "", map[])
    ensures e in flat && Get(Rebuild(flat), Split(e.key)).Some? && Full("", Split(e.key)) == key
  {
    var tree := Rebuild(flat);
    RebuiltPaths(flat, []);
    FlattenIsSound(tree, "", map[], key);
    var path :| Get(tree, path).Some? && Full("", path) == key;
    RebuiltPaths(flat, path);
    e :| e in flat && path == Split(e.key);
  }

  lemma {:induction false} TextHasNothingBelow(s: Section, p: seq<string>, q: seq<string>)
    requires Get(s, p).Some? && p <= q && Get(s, q).Some?
    ensures p == q
    decreases |p|
  {
    if Find(s, p[0]).value.Sub? {
      assert p[1..] <= q[1..];
      TextHasNothingBelow(Find(s, p[0]).value.section, p[1..], q[1..]);
      assert p == [p[0]] + p[1..] && q == [q[0]] + q[1..];
    }
  }

  // ----- sources -----

  predicate PlainNames(s: Section) {
    s.Field? ==>
      && s.name != "" && '.' !in s.name
      && (s.value.Sub? ==> PlainNames(s.value.section))
      && PlainNames(s.rest)
  }

  predicate PlainPath(path: seq<string>) {
    path != [] && forall i | 0 <= i < |path| :: path[i] != "" && '.' !in path[i]
  }

  lemma {:induction false} PlainNameFound(s: Section, name: string)
    requires PlainNames(s) && Find(s, name).Some?
    ensures name != "" && '.' !in name
    ensures Find(s, name).value.Sub? ==> PlainNames(Find(s, name).value.section)
  {
    if s.name != name {
      PlainNameFound(s.rest, name);
    }
  }

  lemma {:induction false} PathsArePlain(s: Section, path: seq<string>)
    requires PlainNames(s) && Get(s, path).Some?
    ensures PlainPath(path)
    decreases |path|
  {
    PlainNameFound(s, path[0]);
    if Find(s, path[0]).value.Sub? {
      PathsArePlain(Find(s, path[0]).value.section, path[1..]);
      assert path == [path[0]] + path[1..];
    }
  }

  lemma {:induction false} SplitOfFull(prefix: string, path: seq<string>)
    requires prefix != "" && forall i | 0 <= i < |path| :: '.' !in path[i]
    ensures Split(Full(prefix, path)) == Split(prefix) + path
    decreases |path|
  {
    if path == [] {
      assert Split(prefix) + [] == Split(prefix);
    } else {
      var longer := prefix + "." + path[0];
      SplitOfFull(longer, path[1..]);
      SplitOfLonger(prefix, path[0]);
    }
  }

  lemma SplitOfLonger(prefix: string, name: string)
    requires '.' !in name
    ensures Split(prefix + "." + name) == Split(prefix) + [name]
  {
    SplitOfDotted(prefix, name);
    SplitOfName(name);
  }

  lemma SplitOfPlain(path: seq<string>)
    requires PlainPath(path)
    ensures Split(Full("", path)) == path
    ensures Full("", path) != "" && Full("", path)[0] != '.'
  {
    SplitOfFull(path[0], path[1..]);
    SplitOfName(path[0]);
    assert path == [path[0]] + path[1..];
    if |path| > 1 {
      FullGrows(path[0], path[1..]);
      assert path[0] <= Full(path[0], path[1..]);
    }
  }

  // A source whose field names are neither empty nor dotted has recoverable keys, so the
  // locale files written from it read back as written.
  lemma PlainSourceIsRecoverable(source: Section)
    requires WellFormed(source) && PlainNames(source)
    ensures Recoverable(Flatten(source, "", map[]).Keys)
  {
    var flat := Flatten(source, "", map[]);
    forall k | k in flat
      ensures k != "" ==> k[0] != '.'
    {
      var path := PlainPathOf(source, k);
    }
    forall p, q | p in flat && q in flat
      ensures !DottedPrefix(p, q)
    {
      var pp := PlainPathOf(source, p);
      var qq := PlainPathOf(source, q);
      if DottedPrefix(p, q) {
        SplitPrefix(p, q);
        TextHasNothingBelow(source, pp, qq);
        assert false;
      }
    }
  }

  lemma PlainPathOf(source: Section, key: string) returns (path: seq<string>)
    requires WellFormed(source) && PlainNames(source)
    requires key in Flatten(source, "", map[])
    ensures Get(source, path).Some? && Split(key) == path && Full("", path) == key
    ensures key != "" && key[0] != '.'
  {
    FlattenIsSound(source, "", map[], key);
    path :| Get(source, path).Some? && Full("", path) == key;
    PathsArePlain(source, path);
    SplitOfPlain(path);
  }
}
