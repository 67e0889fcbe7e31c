/**
 Path expressions over JSON documents. `Compile` parses an expression, `Eval` follows it, and
 `Flatten` lists the paths of a document's scalars. The theorems say that they undo each other.

 An object is the list of its members in the order one traversal visits them: Go leaves that
 order open, so every statement below holds for all orders.
 */
module JsonPath {
  import opened Deliveries
  import opened Decimal
  import opened Text

  const MAX_DEPTH := 10
  const MAX_PATH_LENGTH := 256
  const MAX_FLATTEN_DEPTH := 12
  const MAX_FLATTEN_KEYS := 512

  datatype Member = Member(key: string, value: Json)

  datatype Json =
    | Null
    | Boolean(truth: bool)
    | Number(text: string)
    | Text(text: string)
    | Array(items: seq<Json>)
    | Object(members: seq<Member>)

  datatype Step = Key(name: string) | Index(index: int)

  datatype Path = Path(raw: string, steps: seq<Step>)

  datatype Error = EmptyPath | TooDeep | TooLong | Malformed | Unbracket | NotFound | WrongShape

  datatype Result<+T> = Ok(value: T) | Err(error: Error)

  // ---- Compiling ----

  /** The first position of a dot or an opening bracket from `i` on, or the length. */
  function SeparatorFrom(s: string, i: nat): (j: nat)
    requires i <= |s|
    ensures i <= j <= |s|
    ensures forall k :: i <= k < j ==> s[k] != '.' && s[k] != '['
    ensures j < |s| ==> s[j] == '.' || s[j] == '['
    decreases |s| - i
  {
    if i == |s| || s[i] == '.' || s[i] == '[' then i else SeparatorFrom(s, i + 1)
  }

  function FindSeparator(s: string): (i: nat)
    ensures i <= |s|
    ensures forall k :: 0 <= k < i ==> s[k] != '.' && s[k] != '['
    ensures i < |s| ==> s[i] == '.' || s[i] == '['
  {
    SeparatorFrom(s, 0)
  }

  /** A single or a double quotation mark. */
  predicate IsQuote(c: char) {
    c == '\'' || c == '\"'
  }

  predicate Quoted(s: string) {
    |s| >= 2 && IsQuote(s[0]) && s[|s| - 1] == s[0]
  }

  predicate HasWildcard(s: string) {
    exists i :: 0 <= i < |s| && (s[i] == '*' || s[i] == '?')
  }

  /** The step a bracket's contents denote. */
  function Bracketed(inner: string): Result<Step> {
    if Quoted(inner) then Ok(Key(inner[1..|inner| - 1]))
    else match ParseInt(inner)
      case None => Err(Malformed)
      case Some(n) => Ok(Index(n))
  }

  function Named(name: string): Result<Step> {
    if name == "" || HasWildcard(name) then Err(Malformed) else Ok(Key(name))
  }

  /** Where the first step's text ends. */
  function StepEnd(s: string): (i: nat)
    requires s != ""
    ensures i <= |s|
  {
    if s[0] != '[' then FindSeparator(s) else if Find(s, ']') < |s| then Find(s, ']') + 1 else |s|
  }

  function FirstStep(s: string): Result<Step>
    requires s != ""
  {
    if s[0] != '[' then Named(s[..StepEnd(s)])
    else if Find(s, ']') == |s| then Err(Unbracket)
    else Bracketed(s[1..Find(s, ']')])
  }

  function AfterStep(s: string): string
    requires s != ""
  {
    TrimPrefix(s[StepEnd(s)..], '.')
  }

  lemma StepsConsume(s: string)
    requires s != "" && FirstStep(s).Ok?
    ensures |AfterStep(s)| < |s|
  {
  }

  /** The steps of `s`, with room for `room` of them. */
  function Parse(s: string, room: int): (r: Result<seq<Step>>)
    ensures r.Ok? ==> |r.value| <= room
    decreases |s|
  {
    if room < 0 then Err(TooDeep)
    else if s == "" then Ok([])
    else
      match FirstStep(s)
      case Err(e) => Err(e)
      case Ok(step) =>
        StepsConsume(s);
        Prepend([step], Parse(AfterStep(s), room - 1))
  }

  function Prepend(front: seq<Step>, r: Result<seq<Step>>): Result<seq<Step>> {
    match r
    case Err(e) => Err(e)
    case Ok(steps) => Ok(front + steps)
  }

  /** What an expression compiles to. */
  function Compiled(expr: string): Result<Path> {
    var raw := TrimSpace(expr);
    if raw == "" then Err(EmptyPath)
    else if |raw| > MAX_PATH_LENGTH then Err(TooLong)
    else
      match Parse(TrimPrefix(TrimPrefix(raw, '$'), '.'), MAX_DEPTH)
      case Err(e) => Err(e)
      case Ok(steps) => Ok(Path(raw, steps))
  }

  method Compile(expr: string) returns (r: Result<Path>)
    ensures r == Compiled(expr)
    ensures r.Ok? ==> |r.value.steps| <= 10
  {
    var raw := TrimSpace(expr);
    if raw == "" {
      return Err(EmptyPath);
    }
    if |raw| > MAX_PATH_LENGTH {
      return Err(TooLong);
    }
    var s := TrimPrefix(TrimPrefix(raw, '$'), '.');
    if s == "" {
      return Ok(Path(raw, []));
    }
    var steps := CompileSteps(s);
    if steps.Err? {
      return Err(steps.error);
    }
    return Ok(Path(raw, steps.value));
  }

  method CompileSteps(start: string) returns (r: Result<seq<Step>>)
    ensures r == Parse(start, MAX_DEPTH)
  {
    ghost var goal := Parse(start, MAX_DEPTH);
    var s, steps := start, [];
    PrependNothing(goal);
    while s != ""
      invariant goal == Prepend(steps, Parse(s, MAX_DEPTH - |steps|))
      decreases |s|
    {
      if |steps| > MAX_DEPTH {
        return Err(TooDeep);
      }
      var step := ReadStep(s);
      if step.Err? {
        return Err(step.error);
      }
      Advances(s, steps, step.value);
      s, steps := AfterStep(s), steps + [step.value];
    }
    if |steps| > MAX_DEPTH {
      return Err(TooDeep);
    }
    assert steps + [] == steps;
    return Ok(steps);
  }

  method ReadStep(s: string) returns (r: Result<Step>)
    requires s != ""
    ensures r == FirstStep(s)
  {
    if s[0] == '[' {
      var end := Find(s, ']');
      if end == |s| {
        return Err(Unbracket);
      }
      return Bracketed(s[1..end]);
    }
    return Named(s[..FindSeparator(s)]);
  }

  lemma Advances(s: string, steps: seq<Step>, step: Step)
    requires s != "" && |steps| <= MAX_DEPTH && FirstStep(s) == Ok(step)
    ensures |AfterStep(s)| < |s|
    ensures Prepend(steps, Parse(s, MAX_DEPTH - |steps|))
         == Prepend(steps + [step], Parse(AfterStep(s), MAX_DEPTH - |steps + [step]|))
  {
    StepsConsume(s);
    PrependTwice(steps, [step], Parse(AfterStep(s), MAX_DEPTH - |steps| - 1));
  }

  lemma PrependNothing(r: Result<seq<Step>>)
    ensures Prepend([], r) == r
  {
    assert r.Ok? ==> [] + r.value == r.value;
  }

  lemma PrependTwice(a: seq<Step>, b: seq<Step>, r: Result<seq<Step>>)
    ensures Prepend(a, Prepend(b, r)) == Prepend(a + b, r)
  {
    if r.Ok? {
      assert a + (b + r.value) == a + b + r.value;
    }
  }

  // ---- Evaluating ----

  function Lookup(members: seq<Member>, key: string): Option<Json> {
    if members == [] then None
    else if members[0].key == key then Some(members[0].value)
    else Lookup(members[1..], key)
  }

  /** One step down. A negative index counts from the end. */
  function Descend(v: Json, step: Step): Result<Json> {
    match step
    case Index(n) =>
      if !v.Array? then Err(WrongShape)
      else
        var i := if n < 0 then n + |v.items| else n;
        if 0 <= i < |v.items| then Ok(v.items[i]) else Err(NotFound)
    case Key(name) =>
      if !v.Object? then Err(WrongShape)
      else match Lookup(v.members, name)
        case None => Err(NotFound)
        case Some(child) => Ok(child)
  }

  function Follow(v: Json, steps: seq<Step>): Result<Json>
    decreases |steps|
  {
    if steps == [] then Ok(v)
    else match Descend(v, steps[0])
      case Err(e) => Err(e)
      case Ok(child) => Follow(child, steps[1..])
  }

  method Eval(p: Path, doc: Json) returns (r: Result<Json>)
    ensures r == Follow(doc, p.steps)
  {
    var cur := doc;
    for i := 0 to |p.steps|
      invariant Follow(doc, p.steps) == Follow(cur, p.steps[i..])
    {
      var next := Descend(cur, p.steps[i]);
      assert p.steps[i..][0] == p.steps[i] && p.steps[i..][1..] == p.steps[i + 1..];
      if next.Err? {
        return Err(next.error);
      }
      cur := next.value;
    }
    return Ok(cur);
  }

  // ---- Children, uniformly ----

  predicate IsScalar(v: Json) {
    !v.Array? && !v.Object?
  }

  function ChildCount(v: Json): nat {
    if v.Array? then |v.items| else if v.Object? then |v.members| else 0
  }

  function Child(v: Json, i: nat): (c: Json)
    requires i < ChildCount(v)
    ensures c < v
  {
    if v.Array? then v.items[i] else v.members[i].value
  }

  function ChildStep(v: Json, i: nat): Step
    requires i < ChildCount(v)
  {
    if v.Array? then Index(i) else Key(v.members[i].key)
  }

  /** Objects have each key once, at every level. Decoding guarantees it. */
  predicate WellFormed(v: Json) {
    && (forall i, j :: 0 <= i < j < ChildCount(v) ==> ChildStep(v, i) != ChildStep(v, j))
    && (forall i :: 0 <= i < ChildCount(v) ==> WellFormed(Child(v, i)))
  }

  // ---- Flattening ----

  function Extend(prefix: string, step: Step): string {
    match step
    case Key(name) => if prefix != "" then prefix + "." + name else name
    case Index(n) => prefix + "[" + FormatInt(n) + "]"
  }

  /** The dotted path of a position. */
  function PathOf(at: seq<Step>): string {
    if at == [] then "" else Extend(PathOf(at[..|at| - 1]), at[|at| - 1])
  }

  /** A scalar, its position and the path it is filed under. */
  datatype Leaf = Leaf(at: seq<Step>, path: string, value: Json)

  /** The scalars below `v`, which sits at `at`, in the order of the traversal. */
  function Leaves(at: seq<Step>, v: Json): seq<Leaf>
    decreases v, ChildCount(v) + 1
  {
    if |at| > MAX_FLATTEN_DEPTH then []
    else if !IsScalar(v) then LeavesFrom(at, v, 0)
    else if PathOf(at) != "" then [Leaf(at, PathOf(at), v)]
    else []
  }

  function LeavesFrom(at: seq<Step>, v: Json, i: nat): seq<Leaf>
    requires i <= ChildCount(v)
    decreases v, ChildCount(v) - i
  {
    if i == ChildCount(v) then [] else Leaves(at + [ChildStep(v, i)], Child(v, i)) + LeavesFrom(at, v, i + 1)
  }

  /** Filing leaves under their paths until the map is full. */
  function Filed(out: map<string, Json>, leaves: seq<Leaf>): map<string, Json>
    decreases |leaves|
  {
    if leaves == [] || |out| >= MAX_FLATTEN_KEYS then out
    else Filed(out[leaves[0].path := leaves[0].value], leaves[1..])
  }

  lemma {:induction false} FiledConcat(out: map<string, Json>, a: seq<Leaf>, b: seq<Leaf>)
    ensures Filed(out, a + b) == Filed(Filed(out, a), b)
    decreases |a|
  {
    if a == [] {
      assert a + b == b;
    } else if |out| < MAX_FLATTEN_KEYS {
      assert (a + b)[1..] == a[1..] + b;
      FiledConcat(out[a[0].path := a[0].value], a[1..], b);
    }
  }

  class Flattening {
    var out: map<string, Json>

    constructor ()
      ensures out == map[]
    {
      out := map[];
    }

    /** The recursion, which fills one shared map in place. */
    method Flatten(prefix: string, v: Json, depth: nat, ghost at: seq<Step>)
      requires prefix == PathOf(at) && depth == |at|
      modifies this
      ensures out == Filed(old(out), Leaves(at, v))
      decreases v
    {
      if depth > MAX_FLATTEN_DEPTH || |out| >= MAX_FLATTEN_KEYS {
        return;
      }
      if v.Object? {
        for i := 0 to |v.members|
          invariant Filed(out, LeavesFrom(at, v, i)) == Filed(old(out), LeavesFrom(at, v, 0))
        {
          var key := v.members[i].key;
          if prefix != "" {
            key := prefix + "." + key;
          }
          ghost var step := ChildStep(v, i);
          assert (at + [step])[..|at|] == at;
          FiledConcat(out, Leaves(at + [step], Child(v, i)), LeavesFrom(at, v, i + 1));
          Flatten(key, v.members[i].value, depth + 1, at + [step]);
        }
      } else if v.Array? {
        for i := 0 to |v.items|
          invariant Filed(out, LeavesFrom(at, v, i)) == Filed(old(out), LeavesFrom(at, v, 0))
        {
          ghost var step := ChildStep(v, i);
          assert (at + [step])[..|at|] == at;
          FiledConcat(out, Leaves(at + [step], Child(v, i)), LeavesFrom(at, v, i + 1));
          Flatten(prefix + "[" + FormatInt(i) + "]", v.items[i], depth + 1, at + [step]);
        }
      } else if prefix != "" {
        out := out[prefix := v];
      }
    }
  }

  method Flatten(doc: Json) returns (out: map<string, Json>)
    ensures out == Filed(map[], Leaves([], doc))
  {
    var f := new Flattening();
    f.Flatten("", doc, 0, []);
    out := f.out;
  }

  // ---- Flattened paths parse back ----

  /** A member name that survives being written into a path. */
  predicate PlainKey(k: string) {
    k != "" && !HasWildcard(k) && forall i :: 0 <= i < |k| ==> k[i] != '.' && k[i] != '['
  }

  predicate PlainStep(step: Step) {
    match step
    case Key(name) => PlainKey(name)
    case Index(n) => MIN_INT64 <= n <= MAX_INT64
  }

  predicate PlainSteps(steps: seq<Step>) {
    forall i :: 0 <= i < |steps| ==> PlainStep(steps[i])
  }

  /** The text of one step where the parser meets it, without the dot before a member. */
  function StepText(step: Step): string {
    match step
    case Key(name) => name
    case Index(n) => "[" + FormatInt(n) + "]"
  }

  function Separator(steps: seq<Step>): string {
    if steps != [] && steps[0].Key? then "." else ""
  }

  /** A path from left to right, the way the parser consumes it. */
  function Written(steps: seq<Step>): string {
    if steps == [] then "" else StepText(steps[0]) + (Separator(steps[1..]) + Written(steps[1..]))
  }

  lemma ExtendsAtTheEnd(a: string, b: string, last: Step)
    requires b != ""
    ensures Extend(a + b, last) == a + Extend(b, last)
  {
    match last
    case Key(name) => assert a + b + "." + name == a + (b + "." + name);
    case Index(n) => assert a + b + "[" + FormatInt(n) + "]" == a + (b + "[" + FormatInt(n) + "]");
  }

  lemma WrittenIsNotEmpty(steps: seq<Step>)
    requires steps != [] && PlainStep(steps[0])
    ensures Written(steps) != "" && StepText(steps[0]) != ""
  {
  }

  lemma OneStep(step: Step)
    ensures Written([step]) == StepText(step)
  {
  }

  lemma ExtendAppends(t: string, last: Step)
    requires t != ""
    ensures Extend(t, last) == t + (Separator([last]) + StepText(last))
  {
    match last
    case Key(name) => assert t + "." + name == t + ("." + name);
    case Index(n) => assert t + "[" + FormatInt(n) + "]" == t + ("" + ("[" + FormatInt(n) + "]"));
  }

  lemma TwoSteps(first: Step, last: Step)
    requires StepText(first) != ""
    ensures Written([first, last]) == Extend(StepText(first), last)
  {
    assert [first, last][1..] == [last];
    OneStep(last);
    ExtendAppends(StepText(first), last);
  }

  lemma {:induction false} WrittenExtends(steps: seq<Step>, last: Step)
    requires PlainSteps(steps)
    ensures Written(steps + [last]) == Extend(Written(steps), last)
    decreases |steps|
  {
    if steps == [] {
      assert steps + [last] == [last];
      OneStep(last);
    } else if |steps| == 1 {
      WrittenIsNotEmpty(steps);
      assert steps + [last] == [steps[0], last] && steps == [steps[0]];
      OneStep(steps[0]);
      TwoSteps(steps[0], last);
    } else {
      WrittenExtends(steps[1..], last);
      OneMoreStep(steps, last);
    }
  }

  lemma OneMoreStep(steps: seq<Step>, last: Step)
    requires |steps| > 1 && PlainSteps(steps) && Written(steps[1..] + [last]) == Extend(Written(steps[1..]), last)
    ensures Written(steps + [last]) == Extend(Written(steps), last)
  {
    var tail := steps[1..];
    WrittenIsNotEmpty(tail);
    var all := steps + [last];
    assert all[1..] == tail + [last] && all[0] == steps[0] && all[1] == tail[0];
    assert Separator(all[1..]) == Separator(tail);
    Regroup(StepText(steps[0]), Separator(tail), Written(tail), last);
  }

  lemma Regroup(t: string, sep: string, w: string, last: Step)
    requires w != ""
    ensures t + (sep + Extend(w, last)) == Extend(t + (sep + w), last)
  {
    ExtendsAtTheEnd(sep, w, last);
    ExtendsAtTheEnd(t, sep + w, last);
  }

  lemma {:induction false} PathIsWritten(at: seq<Step>)
    requires PlainSteps(at)
    ensures PathOf(at) == Written(at)
  {
    if at != [] {
      var front := at[..|at| - 1];
      assert at == front + [at[|at| - 1]];
      PathIsWritten(front);
      WrittenExtends(front, at[|at| - 1]);
    }
  }

  lemma SeparatorFound(name: string, rest: string)
    requires PlainKey(name) && (rest == "" || rest[0] == '.' || rest[0] == '[')
    ensures FindSeparator(name + rest) == |name|
  {
    var s := name + rest;
    assert forall i :: 0 <= i < |name| ==> s[i] == name[i];
    assert rest != "" ==> s[|name|] == rest[0];
  }

  lemma ReadsKey(name: string, rest: string)
    requires PlainKey(name) && (rest == "" || rest[0] == '.' || rest[0] == '[')
    ensures FirstStep(name + rest) == Ok(Key(name)) && AfterStep(name + rest) == TrimPrefix(rest, '.')
  {
    SeparatorFound(name, rest);
    var s := name + rest;
    assert s[0] == name[0];
    assert s[..|name|] == name && s[|name|..] == rest;
  }

  lemma BracketFound(inner: string, rest: string)
    requires ']' !in inner
    ensures var s := "[" + inner + "]" + rest;
            Find(s, ']') == |inner| + 1 && s[1..|inner| + 1] == inner && s[|inner| + 2..] == rest
  {
    var s := "[" + inner + "]" + rest;
    assert s[|inner| + 1] == ']';
    assert forall i :: 1 <= i <= |inner| ==> s[i] == inner[i - 1];
  }

  lemma ReadsBracket(inner: string, rest: string)
    requires ']' !in inner
    ensures var s := "[" + inner + "]" + rest;
            FirstStep(s) == Bracketed(inner) && AfterStep(s) == TrimPrefix(rest, '.')
  {
    BracketFound(inner, rest);
  }

  lemma IndexIsBracketed(n: int)
    requires MIN_INT64 <= n <= MAX_INT64
    ensures ']' !in FormatInt(n) && Bracketed(FormatInt(n)) == Ok(Index(n))
  {
    ParseFormat(n);
    var t := FormatInt(n);
    assert IsDigit(t[0]) || t[0] == '-';
    assert forall i :: 0 <= i < |t| ==> IsDigit(t[i]) || t[i] == '-';
  }

  lemma ReadsIndex(n: int, rest: string)
    requires MIN_INT64 <= n <= MAX_INT64
    ensures FirstStep("[" + FormatInt(n) + "]" + rest) == Ok(Index(n))
    ensures AfterStep("[" + FormatInt(n) + "]" + rest) == TrimPrefix(rest, '.')
  {
    IndexIsBracketed(n);
    ReadsBracket(FormatInt(n), rest);
  }

  lemma Resumes(steps: seq<Step>)
    requires PlainSteps(steps)
    ensures TrimPrefix(Separator(steps) + Written(steps), '.') == Written(steps)
    ensures var t := Separator(steps) + Written(steps); t == "" || t[0] == '.' || t[0] == '['
  {
  }

  lemma ReadsStep(step: Step, rest: string)
    requires PlainStep(step) && (rest == "" || rest[0] == '.' || rest[0] == '[')
    ensures var s := StepText(step) + rest;
            s != "" && FirstStep(s) == Ok(step) && AfterStep(s) == TrimPrefix(rest, '.')
  {
    if step.Key? {
      ReadsKey(step.name, rest);
    } else {
      ReadsIndex(step.index, rest);
    }
  }

  lemma WrittenReads(steps: seq<Step>)
    requires PlainSteps(steps) && steps != []
    ensures var s := Written(steps);
            s != "" && FirstStep(s) == Ok(steps[0]) && AfterStep(s) == Written(steps[1..])
  {
    Resumes(steps[1..]);
    ReadsStep(steps[0], Separator(steps[1..]) + Written(steps[1..]));
  }

  lemma ParseUnfolds(s: string, room: int, steps: seq<Step>, after: string)
    requires s != "" && room >= 0 && steps != [] && FirstStep(s) == Ok(steps[0]) && AfterStep(s) == after
    requires Parse(after, room - 1) == if |steps| <= room then Ok(steps[1..]) else Err(TooDeep)
    ensures Parse(s, room) == if |steps| <= room then Ok(steps) else Err(TooDeep)
  {
    assert [steps[0]] + steps[1..] == steps;
  }

  /** Parsing inverts writing, and the depth limit is exact. */
  lemma {:induction false} ParseInvertsWriting(steps: seq<Step>, text: string, room: int)
    requires PlainSteps(steps) && text == Written(steps)
    ensures Parse(text, room) == if |steps| <= room then Ok(steps) else Err(TooDeep)
    decreases |steps|
  {
    if room >= 0 && steps != [] {
      var after := Written(steps[1..]);
      ParseInvertsWriting(steps[1..], after, room - 1);
      WrittenReads(steps);
      ParseUnfolds(text, room, steps, after);
    }
  }

  lemma ParseInvertsPath(at: seq<Step>, path: string, room: int)
    requires PlainSteps(at) && path == PathOf(at)
    ensures Parse(path, room) == if |at| <= room then Ok(at) else Err(TooDeep)
  {
    PathIsWritten(at);
    ParseInvertsWriting(at, path, room);
  }

  lemma ParsesBack(at: seq<Step>, path: string, room: nat)
    requires PlainSteps(at) && path == PathOf(at) && |at| <= room
    ensures Parse(path, room) == Ok(at)
  {
    ParseInvertsPath(at, path, room);
  }

  /** Distinct positions have distinct paths. */
  lemma PathsAreUnique(a: seq<Step>, b: seq<Step>, path: string)
    requires PlainSteps(a) && PlainSteps(b) && PathOf(a) == path && PathOf(b) == path
    ensures a == b
  {
    var room := |a| + |b|;
    ParsesBack(a, path, room);
    ParsesBack(b, path, room);
  }

  /** A flattened path, written with its root, compiles to the position it came from. */
  lemma PathCompiles(at: seq<Step>, path: string)
    requires PlainSteps(at) && path == PathOf(at) && path != "" && !IsSpace(path[|path| - 1])
    requires |at| <= 10 && |path| <= 254
    ensures Compiled("$." + path) == Ok(Path("$." + path, at))
  {
    assert |at| <= MAX_DEPTH;
    ParseInvertsPath(at, path, MAX_DEPTH);
    RootIsStripped(path);
  }

  /** One step more than ten is too deep. */
  lemma ElevenIsTooDeep(at: seq<Step>, path: string)
    requires PlainSteps(at) && path == PathOf(at) && |at| > 10
    ensures Parse(path, MAX_DEPTH) == Err(TooDeep)
  {
    assert |at| > MAX_DEPTH;
    ParseInvertsPath(at, path, MAX_DEPTH);
  }

  lemma RootIsStripped(path: string)
    requires path != "" && !IsSpace(path[|path| - 1])
    ensures TrimSpace("$." + path) == "$." + path
    ensures TrimPrefix(TrimPrefix("$." + path, '$'), '.') == path
  {
  }

  // ---- What flattening lists ----

  predicate Canonical(steps: seq<Step>) {
    forall i :: 0 <= i < |steps| ==> steps[i].Index? ==> steps[i].index >= 0
  }

  /** `leaf` is a scalar of the document `v` at `at`, within the depth limit and with a path. */
  predicate Below(at: seq<Step>, v: Json, leaf: Leaf) {
    && |at| <= |leaf.at| <= 12
    && leaf.at[..|at|] == at
    && Canonical(leaf.at[|at|..])
    && Follow(v, leaf.at[|at|..]) == Ok(leaf.value)
    && IsScalar(leaf.value)
    && leaf.path == PathOf(leaf.at) && leaf.path != ""
  }

  lemma {:induction false} LookupFinds(members: seq<Member>, j: nat)
    requires j < |members|
    requires forall a, b :: 0 <= a < b < |members| ==> members[a].key != members[b].key
    ensures Lookup(members, members[j].key) == Some(members[j].value)
  {
    if j > 0 {
      LookupFinds(members[1..], j - 1);
    }
  }

  lemma {:induction false} LookupIndex(members: seq<Member>, key: string) returns (j: nat)
    requires Lookup(members, key).Some?
    ensures j < |members| && members[j] == Member(key, Lookup(members, key).value)
  {
    if members[0].key == key {
      j := 0;
    } else {
      j := LookupIndex(members[1..], key);
      j := j + 1;
    }
  }

  lemma DescendsToChild(v: Json, j: nat)
    requires WellFormed(v) && j < ChildCount(v)
    ensures Descend(v, ChildStep(v, j)) == Ok(Child(v, j))
  {
    if v.Object? {
      forall a, b | 0 <= a < b < |v.members| ensures v.members[a].key != v.members[b].key {
        assert ChildStep(v, a) != ChildStep(v, b);
      }
      LookupFinds(v.members, j);
    }
  }

  lemma ChildFor(v: Json, step: Step) returns (j: nat)
    requires Descend(v, step).Ok? && (step.Index? ==> step.index >= 0)
    ensures j < ChildCount(v) && ChildStep(v, j) == step
  {
    if step.Index? {
      j := step.index;
    } else {
      j := LookupIndex(v.members, step.name);
    }
  }

  /** A leaf below a node is a leaf below the child its next step names. */
  lemma StepDown(at: seq<Step>, v: Json, j: nat, leaf: Leaf)
    requires WellFormed(v) && j < ChildCount(v)
    requires |at| < |leaf.at| && leaf.at[|at|] == ChildStep(v, j)
    ensures Below(at, v, leaf) <==> Below(at + [ChildStep(v, j)], Child(v, j), leaf)
  {
    DescendsToChild(v, j);
    var rel := leaf.at[|at|..];
    var next := leaf.at[|at| + 1..];
    assert rel[0] == ChildStep(v, j) && rel[1..] == next;
    assert leaf.at[..|at| + 1] == leaf.at[..|at|] + [ChildStep(v, j)];
    assert leaf.at[..|at|] == at <==> leaf.at[..|at| + 1] == at + [ChildStep(v, j)];
    assert ChildStep(v, j).Index? ==> ChildStep(v, j).index >= 0;
    assert rel == [rel[0]] + next;
    assert Canonical(rel) <==> Canonical(next);
  }

  /** The leaf is below one of the children from `i` on. */
  ghost predicate BelowSome(at: seq<Step>, v: Json, i: nat, leaf: Leaf) {
    exists j :: i <= j < ChildCount(v) && BelowChild(at, v, j, leaf)
  }

  ghost predicate BelowChild(at: seq<Step>, v: Json, j: nat, leaf: Leaf)
    requires j < ChildCount(v)
  {
    leaf in Leaves(at + [ChildStep(v, j)], Child(v, j))
  }

  lemma {:induction false} LeavesFromAre(at: seq<Step>, v: Json, i: nat, leaf: Leaf)
    requires i <= ChildCount(v)
    ensures leaf in LeavesFrom(at, v, i) <==> BelowSome(at, v, i, leaf)
    decreases ChildCount(v) - i
  {
    if i < ChildCount(v) {
      LeavesFromAre(at, v, i + 1, leaf);
      assert BelowSome(at, v, i, leaf) <==> BelowChild(at, v, i, leaf) || BelowSome(at, v, i + 1, leaf);
    }
  }

  /** Flattening lists exactly the scalars that paths reach: nothing else and nothing less. */
  lemma {:induction false} LeavesAre(at: seq<Step>, v: Json, leaf: Leaf)
    requires WellFormed(v)
    ensures leaf in Leaves(at, v) <==> Below(at, v, leaf)
    decreases v
  {
    if |at| <= MAX_FLATTEN_DEPTH {
      if IsScalar(v) {
        ScalarLeaves(at, v, leaf);
      } else {
        LeavesFromAre(at, v, 0, leaf);
        if j: nat :| j < ChildCount(v) && BelowChild(at, v, j, leaf) {
          LeavesAre(at + [ChildStep(v, j)], Child(v, j), leaf);
          assert leaf.at[|at|] == leaf.at[..|at| + 1][|at|];
          StepDown(at, v, j, leaf);
        }
        if Below(at, v, leaf) {
          var rel := leaf.at[|at|..];
          assert rel != [];
          var j := ChildFor(v, rel[0]);
          StepDown(at, v, j, leaf);
          LeavesAre(at + [ChildStep(v, j)], Child(v, j), leaf);
          assert BelowChild(at, v, j, leaf);
        }
      }
    }
  }

  lemma ScalarLeaves(at: seq<Step>, v: Json, leaf: Leaf)
    requires IsScalar(v) && |at| <= MAX_FLATTEN_DEPTH
    ensures leaf in Leaves(at, v) <==> Below(at, v, leaf)
  {
    if |at| < |leaf.at| {
      assert Follow(v, leaf.at[|at|..]).Err?;
    } else if |at| == |leaf.at| {
      assert leaf.at[..|at|] == leaf.at && leaf.at[|at|..] == [];
    }
  }

  // ---- No position twice ----

  predicate NoRepeat(leaves: seq<Leaf>) {
    forall i, j :: 0 <= i < j < |leaves| ==> leaves[i].at != leaves[j].at
  }

  lemma NoRepeatConcat(a: seq<Leaf>, b: seq<Leaf>)
    requires NoRepeat(a) && NoRepeat(b)
    requires forall x, y :: x in a && y in b ==> x.at != y.at
    ensures NoRepeat(a + b)
  {
  }

  lemma {:induction false} LeavesDoNotRepeat(at: seq<Step>, v: Json)
    requires WellFormed(v)
    ensures NoRepeat(Leaves(at, v))
    decreases v, ChildCount(v) + 1
  {
    if !IsScalar(v) {
      LeavesFromDoNotRepeat(at, v, 0);
    }
  }

  lemma NextStep(at: seq<Step>, v: Json, j: nat, leaf: Leaf)
    requires WellFormed(v) && j < ChildCount(v) && leaf in Leaves(at + [ChildStep(v, j)], Child(v, j))
    ensures |at| < |leaf.at| && leaf.at[|at|] == ChildStep(v, j)
  {
    LeavesAre(at + [ChildStep(v, j)], Child(v, j), leaf);
    assert leaf.at[|at|] == leaf.at[..|at| + 1][|at|];
  }

  lemma {:induction false} LeavesFromDoNotRepeat(at: seq<Step>, v: Json, i: nat)
    requires WellFormed(v) && i <= ChildCount(v)
    ensures NoRepeat(LeavesFrom(at, v, i))
    decreases v, ChildCount(v) - i
  {
    if i < ChildCount(v) {
      var here, later := Leaves(at + [ChildStep(v, i)], Child(v, i)), LeavesFrom(at, v, i + 1);
      LeavesDoNotRepeat(at + [ChildStep(v, i)], Child(v, i));
      LeavesFromDoNotRepeat(at, v, i + 1);
      forall x, y | x in here && y in later ensures x.at != y.at {
        NextStep(at, v, i, x);
        LeavesFromAre(at, v, i + 1, y);
        var j: nat :| i + 1 <= j < ChildCount(v) && BelowChild(at, v, j, y);
        NextStep(at, v, j, y);
      }
      NoRepeatConcat(here, later);
    }
  }

  // ---- Flatten against Compile and Eval ----

  /** Every member name in the document is plain, and no array has more than 2^63 items. */
  predicate PlainDocument(v: Json) {
    forall i :: 0 <= i < ChildCount(v) ==> PlainStep(ChildStep(v, i)) && PlainDocument(Child(v, i))
  }

  lemma {:induction false} PositionsArePlain(v: Json, steps: seq<Step>)
    requires PlainDocument(v) && Canonical(steps) && Follow(v, steps).Ok?
    ensures PlainSteps(steps)
    decreases |steps|
  {
    if steps != [] {
      var j := ChildFor(v, steps[0]);
      assert PlainStep(ChildStep(v, j));
      ChildIsPlain(v, steps[0]);
      PositionsArePlain(Descend(v, steps[0]).value, steps[1..]);
      assert steps == [steps[0]] + steps[1..];
    }
  }

  lemma ChildIsPlain(v: Json, step: Step)
    requires PlainDocument(v) && Descend(v, step).Ok? && (step.Index? ==> step.index >= 0)
    ensures PlainDocument(Descend(v, step).value)
  {
    if step.Index? {
      assert Child(v, step.index) == v.items[step.index];
    } else {
      var j := LookupIndex(v.members, step.name);
      assert Child(v, j) == v.members[j].value;
    }
  }

  predicate FiledAt(leaves: seq<Leaf>, n: nat, path: string)
    requires n <= |leaves|
  {
    exists i :: 0 <= i < n && leaves[i].path == path
  }

  /** `out` files exactly the leaves before `n`, each under its own path. */
  predicate Files(leaves: seq<Leaf>, n: nat, out: map<string, Json>)
    requires n <= |leaves|
  {
    && |out| == n
    && (forall i :: 0 <= i < n ==> leaves[i].path in out && out[leaves[i].path] == leaves[i].value)
    && (forall path :: path in out ==> FiledAt(leaves, n, path))
  }

  predicate DistinctPaths(leaves: seq<Leaf>) {
    forall i, j :: 0 <= i < j < |leaves| ==> leaves[i].path != leaves[j].path
  }

  lemma FilesOneMore(leaves: seq<Leaf>, n: nat, out: map<string, Json>, next: map<string, Json>)
    requires DistinctPaths(leaves) && n < |leaves| && Files(leaves, n, out)
    requires next == out[leaves[n].path := leaves[n].value]
    ensures Files(leaves, n + 1, next)
  {
  }

  lemma {:induction false} FiledFrom(leaves: seq<Leaf>, n: nat, out: map<string, Json>)
    requires DistinctPaths(leaves) && n <= |leaves| && n <= MAX_FLATTEN_KEYS && Files(leaves, n, out)
    ensures Files(leaves, if |leaves| <= MAX_FLATTEN_KEYS then |leaves| else MAX_FLATTEN_KEYS, Filed(out, leaves[n..]))
    decreases |leaves| - n
  {
    if n < |leaves| && n < MAX_FLATTEN_KEYS {
      var next := out[leaves[n].path := leaves[n].value];
      FilesOneMore(leaves, n, out, next);
      FiledFrom(leaves, n + 1, next);
      assert leaves[n..][0] == leaves[n] && leaves[n..][1..] == leaves[n + 1..];
    }
  }

  lemma LeavesHaveDistinctPaths(doc: Json)
    requires WellFormed(doc) && PlainDocument(doc)
    ensures DistinctPaths(Leaves([], doc))
  {
    var leaves := Leaves([], doc);
    LeavesDoNotRepeat([], doc);
    forall i, j | 0 <= i < j < |leaves| ensures leaves[i].path != leaves[j].path {
      LeafIsPlain(doc, leaves[i]);
      LeafIsPlain(doc, leaves[j]);
      if leaves[i].path == leaves[j].path {
        PathsAreUnique(leaves[i].at, leaves[j].at, leaves[i].path);
        assert false;
      }
    }
  }

  lemma LeafIsPlain(doc: Json, leaf: Leaf)
    requires WellFormed(doc) && PlainDocument(doc) && leaf in Leaves([], doc)
    ensures PlainSteps(leaf.at) && Follow(doc, leaf.at) == Ok(leaf.value) && IsScalar(leaf.value)
    ensures leaf.path == PathOf(leaf.at) && leaf.path != ""
  {
    LeavesAre([], doc, leaf);
    assert leaf.at[0..] == leaf.at;
    PositionsArePlain(doc, leaf.at);
  }

  /** Flattened paths are unique: the map has one entry for each scalar, up to its limit. */
  lemma FlattenKeepsEveryPath(doc: Json)
    requires WellFormed(doc) && PlainDocument(doc)
    ensures var leaves := Leaves([], doc);
            Files(leaves, if |leaves| <= 512 then |leaves| else 512, Filed(map[], leaves))
  {
    var leaves := Leaves([], doc);
    LeavesHaveDistinctPaths(doc);
    assert leaves[0..] == leaves;
    FiledFrom(leaves, 0, map[]);
  }

  /** Flatten, then compile, then evaluate: every entry leads back to its own value. */
  lemma FlattenRoundTrips(doc: Json, path: string) returns (at: seq<Step>)
    requires WellFormed(doc) && PlainDocument(doc) && path in Filed(map[], Leaves([], doc))
    ensures path == PathOf(at) && path != ""
    ensures Follow(doc, at) == Ok(Filed(map[], Leaves([], doc))[path])
    ensures |at| <= 10 && |path| <= 254 && !IsSpace(path[|path| - 1])
            ==> Compiled("$." + path) == Ok(Path("$." + path, at))
  {
    var leaves := Leaves([], doc);
    FlattenKeepsEveryPath(doc);
    var i: nat :| i < |leaves| && leaves[i].path == path && Filed(map[], leaves)[path] == leaves[i].value;
    at := leaves[i].at;
    LeafIsPlain(doc, leaves[i]);
    if |at| <= 10 && |path| <= 254 && !IsSpace(path[|path| - 1]) {
      PathCompiles(at, path);
    }
  }

  /** And nothing is missed: while the map has room, every scalar within the depth limit is in it. */
  lemma FlattenIsComplete(doc: Json, at: seq<Step>)
    requires WellFormed(doc) && PlainDocument(doc) && |Leaves([], doc)| <= 512
    requires at != [] && |at| <= 12 && Canonical(at)
    requires Follow(doc, at).Ok? && IsScalar(Follow(doc, at).value)
    ensures PathOf(at) in Filed(map[], Leaves([], doc))
    ensures Filed(map[], Leaves([], doc))[PathOf(at)] == Follow(doc, at).value
  {
    var leaf := Leaf(at, PathOf(at), Follow(doc, at).value);
    PositionsArePlain(doc, at);
    PathIsWritten(at);
    WrittenIsNotEmpty(at);
    assert at[0..] == at && at[..0] == [];
    LeavesAre([], doc, leaf);
    FlattenKeepsEveryPath(doc);
  }

  // ---- Which member names survive ----

  lemma FirstKeyIsPlain(s: string, k: string)
    requires s != "" && FirstStep(s) == Ok(Key(k))
    ensures |k| <= |s| && (s == k ==> PlainKey(k))
  {
  }

  lemma OnlyPlainKeys(s: string, k: string)
    requires Parse(s, MAX_DEPTH) == Ok([Key(k)])
    ensures |k| <= |s| && (s == k ==> PlainKey(k))
  {
    var step := FirstStep(s).value;
    StepsConsume(s);
    var rest := Parse(AfterStep(s), MAX_DEPTH - 1).value;
    assert ([step] + rest)[0] == step;
    FirstKeyIsPlain(s, k);
  }

  lemma TrailingSpaceIsLost(k: string)
    requires k != "" && IsSpace(k[|k| - 1])
    ensures |TrimPrefix(TrimPrefix(TrimSpace("$." + k), '$'), '.')| < |k|
  {
    var s := "$." + k;
    assert s[|s| - 1] == k[|k| - 1];
    TrimRightShortens(s);
    var raw := TrimSpace(s);
    assert raw == TrimRight(s);
    assert raw[0] == s[0] == '$';
    assert |raw| > 1 ==> raw[1] == s[1] == '.';
  }

  /** The condition on names is exact: a member name written as a path compiles to that one
      member if and only if it is plain, does not end in white space and is short enough. */
  lemma KeyRoundTripsExactly(k: string)
    ensures Compiled("$." + k).Ok? && Compiled("$." + k).value.steps == [Key(k)] <==>
            PlainKey(k) && !IsSpace(k[|k| - 1]) && |k| <= 254
  {
    if k == "" {
      assert Compiled("$." + k).Ok? ==> Compiled("$." + k).value.steps == [];
    } else if IsSpace(k[|k| - 1]) {
      TrailingSpaceIsLost(k);
      var s := TrimPrefix(TrimPrefix(TrimSpace("$." + k), '$'), '.');
      if Parse(s, MAX_DEPTH) == Ok([Key(k)]) {
        OnlyPlainKeys(s, k);
      }
    } else {
      RootIsStripped(k);
      if Parse(k, MAX_DEPTH) == Ok([Key(k)]) {
        OnlyPlainKeys(k, k);
      }
      if PlainKey(k) {
        assert [Key(k)][..0] == [];
        assert PathOf([Key(k)]) == k;
        ParsesBack([Key(k)], k, MAX_DEPTH);
      }
    }
  }

  // ---- In plain terms ----

  /** A quoted bracket, with either quote, names a member outright, dots and all. */
  lemma QuotedMembers(k: string, quote: char)
    requires IsQuote(quote) && ']' !in k && |k| <= 252
    ensures var e := "[" + ([quote] + k + [quote]) + "]";
            Compiled(e) == Ok(Path(e, [Key(k)]))
  {
    var inner := [quote] + k + [quote];
    var e := "[" + inner + "]";
    assert e == "[" + inner + "]" + "";
    ReadsBracket(inner, "");
    assert inner[1..|inner| - 1] == k && Bracketed(inner) == Ok(Key(k));
    assert [Key(k)][1..] == [];
    ParseUnfolds(e, MAX_DEPTH, [Key(k)], "");
    TrimKeeps(e);
  }

  /** Where expressions fail: nothing, too much, an open bracket, an empty step, a wildcard. */
  lemma CompileErrors(s: string)
    ensures Compiled("") == Err(EmptyPath)
    ensures |TrimSpace(s)| > 256 ==> Compiled(s) == Err(TooLong)
    ensures ']' !in s && |s| <= 250 && NoSpaceAtEnds("[" + s) ==> Compiled("[" + s) == Err(Unbracket)
    ensures Compiled("a..b") == Err(Malformed)
    ensures IsName(s) && ('*' in s || '?' in s) ==> Compiled(s) == Err(Malformed)
  {
    if ']' !in s && |s| <= 250 && NoSpaceAtEnds("[" + s) {
      TrimKeeps("[" + s);
      assert Find("[" + s, ']') == |s| + 1;
    }
    if IsName(s) {
      TrimKeeps(s);
      assert FindSeparator(s) == |s| && s[..|s|] == s;
    }
    DotDot();
  }

  predicate IsName(s: string) {
    s != "" && |s| <= 250 && NoSpaceAtEnds(s) && s[0] != '$' && '.' !in s && '[' !in s
  }

  lemma DotDot()
    ensures Compiled("a..b") == Err(Malformed)
  {
    var s := "a..b";
    TrimKeeps(s);
    assert FindSeparator(s) == 1 && s[..1] == "a" && AfterStep(s) == ".b";
    assert FirstStep(".b") == Err(Malformed);
  }

  /** The root is the whole document, and may be left out. */
  lemma RootIsOptional(s: string)
    requires NoSpaceAtEnds(s) && s != "" && s[0] != '$' && s[0] != '.' && |s| <= 254
    ensures Compiled("$") == Ok(Path("$", []))
    ensures Compiled(s) == if Parse(s, 10).Err? then Err(Parse(s, 10).error) else Ok(Path(s, Parse(s, 10).value))
    ensures Compiled("$." + s) == if Parse(s, 10).Err? then Err(Parse(s, 10).error) else Ok(Path("$." + s, Parse(s, 10).value))
  {
    TrimKeeps("$");
    TrimKeeps(s);
    RootIsStripped(s);
  }

  /** One step of evaluation: a negative index counts from the end, what is not there is not found,
      and a step into something else than it expects has the wrong shape. */
  lemma StepsInPlainTerms(items: seq<Json>, n: int, members: seq<Member>, key: string, v: Json)
    ensures 0 <= n < |items| ==> Descend(Array(items), Index(n)) == Ok(items[n])
    ensures 1 <= n <= |items| ==> Descend(Array(items), Index(-n)) == Ok(items[|items| - n])
    ensures n < -|items| || |items| <= n ==> Descend(Array(items), Index(n)) == Err(NotFound)
    ensures (forall i :: 0 <= i < |members| ==> members[i].key != key) ==> Descend(Object(members), Key(key)) == Err(NotFound)
    ensures !v.Array? ==> Descend(v, Index(n)) == Err(WrongShape)
    ensures !v.Object? ==> Descend(v, Key(key)) == Err(WrongShape)
  {
    if forall i :: 0 <= i < |members| ==> members[i].key != key {
      LookupMisses(members, key);
    }
  }

  lemma {:induction false} LookupMisses(members: seq<Member>, key: string)
    requires forall i :: 0 <= i < |members| ==> members[i].key != key
    ensures Lookup(members, key) == None
  {
    if members != [] {
      LookupMisses(members[1..], key);
    }
  }
}
