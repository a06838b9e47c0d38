/** The bounded JSON validator (fabric/wire.go): a recursive walk over the decoder's
    tokens that counts members over the whole document, against the documents it is
    meant to accept. */
module JsonValidator {
  import opened Bytes
  import Utf8

  /** What the decoder delivers: strings with their escapes decoded, other scalars,
      the four delimiters, and `Bad` where it reports a syntax error. */
  datatype Token =
    | Text(s: string) | Scalar(literal: string) | OpenObject | CloseObject | OpenArray | CloseArray | Bad
  {
    predicate Closes() {
      CloseObject? || CloseArray?
    }
  }

  datatype Limits = Limits(maxBytes: int, maxDepth: int, maxMembers: int) {
    predicate Positive() {
      maxBytes > 0 && maxDepth > 0 && maxMembers > 0
    }
  }

  /** The requested Go type as a graph, so that types may refer to themselves: a struct
      with named fields, a list, or anything whose keys are its own business. */
  datatype Node = Opaque | Struct(fields: map<string, nat>) | List(element: nat)

  const UNTYPED := 0

  /** `node` describes each type, `fold` is case-insensitive equality. */
  datatype Config = Config(node: nat -> Node, fold: (string, string) -> bool, limits: Limits) {
    function NodeOf(ty: nat): Node {
      if ty == UNTYPED then Opaque else node(ty)
    }

    function Fields(ty: nat): map<string, nat> {
      if NodeOf(ty).Struct? then NodeOf(ty).fields else map[]
    }

    function Element(ty: nat): nat {
      if NodeOf(ty).List? then NodeOf(ty).element else UNTYPED
    }

    function FieldType(ty: nat, key: string): nat {
      if key in Fields(ty) then Fields(ty)[key] else UNTYPED
    }

    /** The key is a field of the type, or not even a case variant of one. */
    predicate Spelled(ty: nat, key: string) {
      key in Fields(ty) || forall name :: name in Fields(ty) ==> !fold(name, key)
    }
  }

  // ---------------------------------------------------------------- the validator

  datatype Outcome = Refused | Accepted(rest: seq<Token>, members: nat)

  /** Whether the decoder reports another element in the current collection. */
  predicate More(ts: seq<Token>) {
    ts != [] && !ts[0].Closes()
  }

  function Value(cfg: Config, ts: seq<Token>, depth: nat, members: nat, ty: nat): (r: Outcome)
    ensures r.Accepted? ==> |r.rest| < |ts|
    decreases |ts|, 0
  {
    if ts == [] then Refused
    else match ts[0]
         case Text(_) => Accepted(ts[1..], members)
         case Scalar(_) => Accepted(ts[1..], members)
         case OpenObject =>
           if depth >= cfg.limits.maxDepth then Refused else Object(cfg, ts[1..], depth, members, ty, {})
         case OpenArray =>
           if depth >= cfg.limits.maxDepth then Refused else Array(cfg, ts[1..], depth, members, cfg.Element(ty))
         case _ => Refused
  }

  function Object(cfg: Config, ts: seq<Token>, depth: nat, members: nat, ty: nat, seen: set<string>): (r: Outcome)
    ensures r.Accepted? ==> |r.rest| < |ts|
    decreases |ts|, 1
  {
    if !More(ts) then if ts != [] && ts[0].CloseObject? then Accepted(ts[1..], members) else Refused
    else if members >= cfg.limits.maxMembers || !ts[0].Text? || ts[0].s in seen || !cfg.Spelled(ty, ts[0].s) then Refused
    else match Value(cfg, ts[1..], depth + 1, members + 1, cfg.FieldType(ty, ts[0].s))
         case Refused => Refused
         case Accepted(rest, count) => Object(cfg, rest, depth, count, ty, seen + {ts[0].s})
  }

  function Array(cfg: Config, ts: seq<Token>, depth: nat, members: nat, element: nat): (r: Outcome)
    ensures r.Accepted? ==> |r.rest| < |ts|
    decreases |ts|, 1
  {
    if !More(ts) then if ts != [] && ts[0].CloseArray? then Accepted(ts[1..], members) else Refused
    else if members >= cfg.limits.maxMembers then Refused
    else match Value(cfg, ts, depth + 1, members + 1, element)
         case Refused => Refused
         case Accepted(rest, count) => Array(cfg, rest, depth, count, element)
  }

  /** The decoder the validator consumes. */
  class Decoder {
    var rest: seq<Token>

    constructor (tokens: seq<Token>)
      ensures rest == tokens
    {
      rest := tokens;
    }

    method Next() returns (t: Option<Token>)
      modifies this
      ensures t == if old(rest) == [] || old(rest)[0].Bad? then None else Some(old(rest)[0])
      ensures rest == if old(rest) == [] then [] else old(rest)[1..]
    {
      if rest == [] { return None; }
      t := if rest[0].Bad? then None else Some(rest[0]);
      rest := rest[1..];
    }
  }

  /** validateJSONValue with its member counter threaded through every call. */
  method ValidateValue(cfg: Config, d: Decoder, depth: nat, members: nat, ty: nat) returns (ok: bool, count: nat)
    modifies d
    ensures
      var r := Value(cfg, old(d.rest), depth, members, ty);
      ok == r.Accepted? && (ok ==> d.rest == r.rest && count == r.members)
    decreases |d.rest|, 0
  {
    count := members;
    var t := d.Next();
    if t.None? || t.value.Closes() { return false, count; }
    if t.value.Text? || t.value.Scalar? { return true, count; }
    if depth >= cfg.limits.maxDepth { return false, count; }
    if t.value.OpenObject? {
      ok, count := ValidateObject(cfg, d, depth, members, ty);
    } else {
      ok, count := ValidateArray(cfg, d, depth, members, cfg.Element(ty));
    }
  }

  method ValidateObject(cfg: Config, d: Decoder, depth: nat, members: nat, ty: nat) returns (ok: bool, count: nat)
    modifies d
    ensures
      var r := Object(cfg, old(d.rest), depth, members, ty, {});
      ok == r.Accepted? && (ok ==> d.rest == r.rest && count == r.members)
    decreases |d.rest|, 1
  {
    count := members;
    var seen := {};
    while More(d.rest)
      invariant |d.rest| <= |old(d.rest)|
      invariant Object(cfg, d.rest, depth, count, ty, seen) == Object(cfg, old(d.rest), depth, members, ty, {})
      decreases |d.rest|
    {
      if count >= cfg.limits.maxMembers { return false, count; }
      var key := d.Next();
      if key.None? || !key.value.Text? { return false, count; }
      var name := key.value.s;
      if name in seen { return false, count; }
      if !cfg.Spelled(ty, name) { return false, count; }
      seen := seen + {name};
      ok, count := ValidateValue(cfg, d, depth + 1, count + 1, cfg.FieldType(ty, name));
      if !ok { return; }
    }
    var closing := d.Next();
    ok := closing == Some(CloseObject);
  }

  method ValidateArray(cfg: Config, d: Decoder, depth: nat, members: nat, element: nat) returns (ok: bool, count: nat)
    modifies d
    ensures
      var r := Array(cfg, old(d.rest), depth, members, element);
      ok == r.Accepted? && (ok ==> d.rest == r.rest && count == r.members)
    decreases |d.rest|, 1
  {
    count := members;
    while More(d.rest)
      invariant |d.rest| <= |old(d.rest)|
      invariant Array(cfg, d.rest, depth, count, element) == Array(cfg, old(d.rest), depth, members, element)
      decreases |d.rest|
    {
      if count >= cfg.limits.maxMembers { return false, count; }
      ok, count := ValidateValue(cfg, d, depth + 1, count + 1, element);
      if !ok { return; }
    }
    var closing := d.Next();
    ok := closing == Some(CloseArray);
  }

  /** The checks DecodeJSONWithLimits makes before decoding. */
  predicate Checks(cfg: Config, data: bytes, ts: seq<Token>, ty: nat) {
    && cfg.limits.Positive() && |data| <= cfg.limits.maxBytes && Utf8.Valid(data)
    && var r := Value(cfg, ts, 0, 0, ty);
       r.Accepted? && r.rest == []
  }

  method CheckDocument(cfg: Config, data: bytes, ts: seq<Token>, ty: nat) returns (ok: bool)
    ensures ok == Checks(cfg, data, ts, ty)
  {
    if !cfg.limits.Positive() || |data| > cfg.limits.maxBytes { return false; }
    if !Utf8.Valid(data) { return false; }
    var d := new Decoder(ts);
    var valid, _ := ValidateValue(cfg, d, 0, 0, ty);
    ok := valid && d.rest == [];
  }

  // ---------------------------------------------------------------- documents

  datatype Json = Leaf(token: Token) | Record(members: Members) | Sequence(elements: Elements)

  datatype Members = NoMembers | Member(key: string, value: Json, rest: Members)

  datatype Elements = NoElements | Item(value: Json, rest: Elements)

  function Tokens(j: Json): seq<Token> {
    match j
    case Leaf(t) => [t]
    case Record(ms) => [OpenObject] + MemberTokens(ms)
    case Sequence(es) => [OpenArray] + ElementTokens(es)
  }

  function MemberTokens(ms: Members): seq<Token> {
    match ms
    case NoMembers => [CloseObject]
    case Member(key, value, rest) => [Text(key)] + Tokens(value) + MemberTokens(rest)
  }

  function ElementTokens(es: Elements): seq<Token> {
    match es
    case NoElements => [CloseArray]
    case Item(value, rest) => Tokens(value) + ElementTokens(rest)
  }

  function Max(a: nat, b: nat): nat {
    if a < b then b else a
  }

  /** How many collections lie inside each other. */
  function Depth(j: Json): nat {
    match j
    case Leaf(_) => 0
    case Record(ms) => 1 + MembersDepth(ms)
    case Sequence(es) => 1 + ElementsDepth(es)
  }

  function MembersDepth(ms: Members): nat {
    match ms
    case NoMembers => 0
    case Member(_, value, rest) => Max(Depth(value), MembersDepth(rest))
  }

  function ElementsDepth(es: Elements): nat {
    match es
    case NoElements => 0
    case Item(value, rest) => Max(Depth(value), ElementsDepth(rest))
  }

  /** Members and elements of the whole document together. */
  function Size(j: Json): nat {
    match j
    case Leaf(_) => 0
    case Record(ms) => MembersSize(ms)
    case Sequence(es) => ElementsSize(es)
  }

  function MembersSize(ms: Members): nat {
    match ms
    case NoMembers => 0
    case Member(_, value, rest) => 1 + Size(value) + MembersSize(rest)
  }

  function ElementsSize(es: Elements): nat {
    match es
    case NoElements => 0
    case Item(value, rest) => 1 + Size(value) + ElementsSize(rest)
  }

  function Keys(ms: Members): set<string> {
    match ms
    case NoMembers => {}
    case Member(key, _, rest) => {key} + Keys(rest)
  }

  /** Scalars at the leaves, no name twice in an object, and no case variant of a typed
      field, all the way down. */
  predicate Clean(cfg: Config, j: Json, ty: nat) {
    match j
    case Leaf(t) => t.Text? || t.Scalar?
    case Record(ms) => MembersClean(cfg, ms, ty)
    case Sequence(es) => ElementsClean(cfg, es, cfg.Element(ty))
  }

  predicate MembersClean(cfg: Config, ms: Members, ty: nat) {
    match ms
    case NoMembers => true
    case Member(key, value, rest) =>
      && key !in Keys(rest) && cfg.Spelled(ty, key) && Clean(cfg, value, cfg.FieldType(ty, key))
      && MembersClean(cfg, rest, ty)
  }

  predicate ElementsClean(cfg: Config, es: Elements, element: nat) {
    match es
    case NoElements => true
    case Item(value, rest) => Clean(cfg, value, element) && ElementsClean(cfg, rest, element)
  }

  /** A value at `depth`, with `members` counted before it, keeps both limits. */
  predicate Within(cfg: Config, depth: nat, inner: nat, members: nat, size: nat) {
    (inner > 0 ==> depth + inner <= cfg.limits.maxDepth) && (size > 0 ==> members + size <= cfg.limits.maxMembers)
  }

  // ---------------------------------------------------------------- accepts every such document

  lemma {:induction false} ValueAccepts(cfg: Config, j: Json, rest: seq<Token>, depth: nat, members: nat, ty: nat)
    requires Clean(cfg, j, ty) && Within(cfg, depth, Depth(j), members, Size(j))
    ensures Value(cfg, Tokens(j) + rest, depth, members, ty) == Accepted(rest, members + Size(j))
    decreases j
  {
    match j
    case Leaf(t) => LeafAccepts(cfg, t, rest, depth, members, ty);
    case Record(ms) =>
      ObjectAccepts(cfg, ms, rest, depth, members, ty, {});
      ValueOfObject(cfg, MemberTokens(ms), rest, depth, members, ty);
    case Sequence(es) =>
      ArrayAccepts(cfg, es, rest, depth, members, cfg.Element(ty));
      ValueOfArray(cfg, ElementTokens(es), rest, depth, members, ty);
  }

  lemma LeafAccepts(cfg: Config, t: Token, rest: seq<Token>, depth: nat, members: nat, ty: nat)
    requires t.Text? || t.Scalar?
    ensures Value(cfg, [t] + rest, depth, members, ty) == Accepted(rest, members)
  {
    Uncons(t, rest);
  }

  lemma ValueOfObject(cfg: Config, body: seq<Token>, rest: seq<Token>, depth: nat, members: nat, ty: nat)
    requires depth < cfg.limits.maxDepth
    ensures Value(cfg, ([OpenObject] + body) + rest, depth, members, ty) == Object(cfg, body + rest, depth, members, ty, {})
  {
    assert ([OpenObject] + body) + rest == [OpenObject] + (body + rest);
    Uncons(OpenObject, body + rest);
  }

  lemma ValueOfArray(cfg: Config, body: seq<Token>, rest: seq<Token>, depth: nat, members: nat, ty: nat)
    requires depth < cfg.limits.maxDepth
    ensures Value(cfg, ([OpenArray] + body) + rest, depth, members, ty) == Array(cfg, body + rest, depth, members, cfg.Element(ty))
  {
    assert ([OpenArray] + body) + rest == [OpenArray] + (body + rest);
    Uncons(OpenArray, body + rest);
  }

  lemma {:induction false} ObjectAccepts(cfg: Config, ms: Members, rest: seq<Token>, depth: nat, members: nat, ty: nat, seen: set<string>)
    requires MembersClean(cfg, ms, ty) && Keys(ms) !! seen && depth < cfg.limits.maxDepth
    requires Within(cfg, depth + 1, MembersDepth(ms), members, MembersSize(ms))
    ensures Object(cfg, MemberTokens(ms) + rest, depth, members, ty, seen) == Accepted(rest, members + MembersSize(ms))
    decreases ms
  {
    match ms
    case NoMembers => EmptyObject(cfg, rest, depth, members, ty, seen);
    case Member(key, value, more) =>
      KeysApart(key, Keys(more), seen);
      ValueAccepts(cfg, value, MemberTokens(more) + rest, depth + 1, members + 1, cfg.FieldType(ty, key));
      ObjectAccepts(cfg, more, rest, depth, members + 1 + Size(value), ty, seen + {key});
      ObjectStep(cfg, key, Tokens(value), MemberTokens(more), rest, depth, members, ty, seen, members + 1 + Size(value));
  }

  lemma KeysApart(key: string, others: set<string>, seen: set<string>)
    requires ({key} + others) !! seen && key !in others
    ensures key !in seen && others !! (seen + {key})
  {
  }

  lemma EmptyObject(cfg: Config, rest: seq<Token>, depth: nat, members: nat, ty: nat, seen: set<string>)
    ensures Object(cfg, [CloseObject] + rest, depth, members, ty, seen) == Accepted(rest, members)
  {
    Uncons(CloseObject, rest);
  }

  lemma Uncons(t: Token, rest: seq<Token>)
    ensures ([t] + rest)[0] == t && ([t] + rest)[1..] == rest
  {
  }

  /** One member accepted, the object goes on with the rest. */
  lemma ObjectStep(cfg: Config, key: string, value: seq<Token>, more: seq<Token>, rest: seq<Token>, depth: nat, members: nat,
                   ty: nat, seen: set<string>, count: nat)
    requires members < cfg.limits.maxMembers && key !in seen && cfg.Spelled(ty, key)
    requires Value(cfg, value + (more + rest), depth + 1, members + 1, cfg.FieldType(ty, key)) == Accepted(more + rest, count)
    ensures Object(cfg, ([Text(key)] + value + more) + rest, depth, members, ty, seen) ==
      Object(cfg, more + rest, depth, count, ty, seen + {key})
  {
    assert ([Text(key)] + value + more) + rest == [Text(key)] + (value + (more + rest));
    Uncons(Text(key), value + (more + rest));
  }

  lemma CleanDoesNotClose(cfg: Config, j: Json, ty: nat)
    requires Clean(cfg, j, ty)
    ensures Tokens(j) != [] && !Tokens(j)[0].Closes()
  {
  }

  lemma {:induction false} ArrayAccepts(cfg: Config, es: Elements, rest: seq<Token>, depth: nat, members: nat, element: nat)
    requires ElementsClean(cfg, es, element) && depth < cfg.limits.maxDepth
    requires Within(cfg, depth + 1, ElementsDepth(es), members, ElementsSize(es))
    ensures Array(cfg, ElementTokens(es) + rest, depth, members, element) == Accepted(rest, members + ElementsSize(es))
    decreases es
  {
    var ts := ElementTokens(es) + rest;
    match es
    case NoElements =>
      assert ts[1..] == rest;
    case Item(value, more) =>
      var tail := ElementTokens(more) + rest;
      assert ts == Tokens(value) + tail;
      CleanDoesNotClose(cfg, value, element);
      ValueAccepts(cfg, value, tail, depth + 1, members + 1, element);
      ArrayAccepts(cfg, more, rest, depth, members + 1 + Size(value), element);
  }

  // ---------------------------------------------------------------- accepts nothing else

  lemma {:induction false} ValueSound(cfg: Config, ts: seq<Token>, depth: nat, members: nat, ty: nat) returns (j: Json)
    requires Value(cfg, ts, depth, members, ty).Accepted?
    ensures
      var r := Value(cfg, ts, depth, members, ty);
      && ts == Tokens(j) + r.rest && Clean(cfg, j, ty) && r.members == members + Size(j)
      && Within(cfg, depth, Depth(j), members, Size(j))
    decreases |ts|, 0
  {
    if ts[0].OpenObject? {
      var ms := ObjectSound(cfg, ts[1..], depth, members, ty, {});
      j := Record(ms);
      JoinFirst(ts, MemberTokens(ms), Object(cfg, ts[1..], depth, members, ty, {}).rest);
    } else if ts[0].OpenArray? {
      var es := ArraySound(cfg, ts[1..], depth, members, cfg.Element(ty));
      j := Sequence(es);
      JoinFirst(ts, ElementTokens(es), Array(cfg, ts[1..], depth, members, cfg.Element(ty)).rest);
    } else {
      j := Leaf(ts[0]);
    }
  }

  lemma JoinFirst(ts: seq<Token>, body: seq<Token>, end: seq<Token>)
    requires ts != [] && ts[1..] == body + end
    ensures ts == [ts[0]] + body + end
  {
    assert ts == [ts[0]] + ts[1..];
  }

  lemma JoinMember(ts: seq<Token>, key: string, value: Json, rest: Members, mid: seq<Token>, end: seq<Token>)
    requires ts != [] && ts[0] == Text(key) && ts[1..] == Tokens(value) + mid && mid == MemberTokens(rest) + end
    ensures ts == MemberTokens(Member(key, value, rest)) + end
  {
    assert ts == [Text(key)] + ts[1..];
  }

  lemma {:induction false} ObjectSound(cfg: Config, ts: seq<Token>, depth: nat, members: nat, ty: nat, seen: set<string>)
    returns (ms: Members)
    requires Object(cfg, ts, depth, members, ty, seen).Accepted? && depth < cfg.limits.maxDepth
    ensures
      var r := Object(cfg, ts, depth, members, ty, seen);
      && ts == MemberTokens(ms) + r.rest && MembersClean(cfg, ms, ty) && Keys(ms) !! seen
      && r.members == members + MembersSize(ms) && Within(cfg, depth + 1, MembersDepth(ms), members, MembersSize(ms))
    decreases |ts|, 1
  {
    if !More(ts) {
      ms := NoMembers;
      assert ts == [CloseObject] + ts[1..];
    } else {
      var key := ts[0].s;
      var fieldType := cfg.FieldType(ty, key);
      var first := Value(cfg, ts[1..], depth + 1, members + 1, fieldType);
      var value := ValueSound(cfg, ts[1..], depth + 1, members + 1, fieldType);
      var rest := ObjectSound(cfg, first.rest, depth, first.members, ty, seen + {key});
      ms := Member(key, value, rest);
      assert key !in Keys(rest);
      JoinMember(ts, key, value, rest, first.rest, Object(cfg, ts, depth, members, ty, seen).rest);
    }
  }

  lemma {:induction false} ArraySound(cfg: Config, ts: seq<Token>, depth: nat, members: nat, element: nat) returns (es: Elements)
    requires Array(cfg, ts, depth, members, element).Accepted? && depth < cfg.limits.maxDepth
    ensures
      var r := Array(cfg, ts, depth, members, element);
      && ts == ElementTokens(es) + r.rest && ElementsClean(cfg, es, element)
      && r.members == members + ElementsSize(es) && Within(cfg, depth + 1, ElementsDepth(es), members, ElementsSize(es))
    decreases |ts|, 1
  {
    if !More(ts) {
      es := NoElements;
      assert ts == [CloseArray] + ts[1..];
    } else {
      var first := Value(cfg, ts, depth + 1, members + 1, element);
      var value := ValueSound(cfg, ts, depth + 1, members + 1, element);
      var rest := ArraySound(cfg, first.rest, depth, first.members, element);
      es := Item(value, rest);
    }
  }

  /** A document the validator is meant to accept. */
  predicate Acceptable(cfg: Config, j: Json, ty: nat) {
    Clean(cfg, j, ty) && Depth(j) <= cfg.limits.maxDepth && Size(j) <= cfg.limits.maxMembers
  }

  /** With limits, size and encoding in order, the validator accepts a token stream
      exactly when it is one complete document, and nothing more, with nesting and total
      members within the limits, no name twice in any object, and no misspelt field. */
  lemma AcceptsExactly(cfg: Config, data: bytes, ts: seq<Token>, ty: nat)
    ensures Checks(cfg, data, ts, ty) <==>
      && cfg.limits.Positive() && |data| <= cfg.limits.maxBytes && Utf8.Valid(data)
      && exists j :: Tokens(j) == ts && Acceptable(cfg, j, ty)
  {
    if Checks(cfg, data, ts, ty) {
      var j := ValueSound(cfg, ts, 0, 0, ty);
      assert Tokens(j) + [] == Tokens(j);
      assert Tokens(j) == ts && Acceptable(cfg, j, ty);
    }
    if cfg.limits.Positive() && exists j :: Tokens(j) == ts && Acceptable(cfg, j, ty) {
      var j :| Tokens(j) == ts && Acceptable(cfg, j, ty);
      ValueAccepts(cfg, j, [], 0, 0, ty);
      assert Tokens(j) + [] == Tokens(j);
    }
  }
}
