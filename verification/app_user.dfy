/**
 * The Redux `user` slice of src/App.jsx: the signed-in user record and the
 * authenticated flag, set from a login payload and cleared on logout, and
 * the selector the app reads the flag through.
 */
module AppUser {
  import opened Wrappers
  import opened JsSemantics

  /** JSON-representable data (integral numbers only). */
  datatype Json =
    | JNull
    | JBool(b: bool)
    | JNum(n: int)
    | JStr(s: string)
    | JArr(items: seq<Json>)
    | JObj(members: seq<Member>)

  datatype Member = Member(key: string, value: Json)

  /** `!!value`: null, false, 0 and "" are falsy; every array and object is truthy. */
  predicate Truthy(j: Json)
  {
    match j
    case JNull => false
    case JBool(b) => b
    case JNum(n) => n != 0
    case JStr(s) => TruthyString(s)
    case JArr(_) => true
    case JObj(_) => true
  }

  /* ---------------------------------------------------------------------- */
  /* `JSON.parse(JSON.stringify(payload))` on a token stream                 */
  /* ---------------------------------------------------------------------- */

  /** The lexical tokens of JSON text. */
  datatype Token =
    | TNull | TBool(b: bool) | TNum(n: int) | TStr(s: string)
    | TOpenArr | TCloseArr | TOpenObj | TKey(key: string) | TCloseObj

  /** A token that can begin a value. */
  predicate StartsValue(t: Token)
  {
    t.TNull? || t.TBool? || t.TNum? || t.TStr? || t.TOpenArr? || t.TOpenObj?
  }

  /** `JSON.stringify`, as tokens. */
  function Stringify(j: Json): (r: seq<Token>)
    ensures |r| > 0 && StartsValue(r[0])
    decreases j
  {
    match j
    case JNull => [TNull]
    case JBool(b) => [TBool(b)]
    case JNum(n) => [TNum(n)]
    case JStr(s) => [TStr(s)]
    case JArr(items) => [TOpenArr] + StringifyItems(items) + [TCloseArr]
    case JObj(members) => [TOpenObj] + StringifyMembers(members) + [TCloseObj]
  }

  function StringifyItems(items: seq<Json>): seq<Token>
    decreases items
  {
    if items == [] then [] else Stringify(items[0]) + StringifyItems(items[1..])
  }

  function StringifyMembers(members: seq<Member>): seq<Token>
    decreases members
  {
    if members == [] then []
    else [TKey(members[0].key)] + Stringify(members[0].value) + StringifyMembers(members[1..])
  }

  /** `JSON.parse`: one value from the front of `ts`, and the tokens after it. */
  function ParseValue(ts: seq<Token>): (r: Option<(Json, seq<Token>)>)
    ensures r.Some? ==> |r.value.1| < |ts|
    decreases |ts|, 0
  {
    if ts == [] then None
    else match ts[0]
      case TNull => Some((JNull, ts[1..]))
      case TBool(b) => Some((JBool(b), ts[1..]))
      case TNum(n) => Some((JNum(n), ts[1..]))
      case TStr(s) => Some((JStr(s), ts[1..]))
      case TOpenArr =>
        (match ParseItems(ts[1..])
         case None => None
         case Some((items, rest)) => Some((JArr(items), rest)))
      case TOpenObj =>
        (match ParseMembers(ts[1..])
         case None => None
         case Some((members, rest)) => Some((JObj(members), rest)))
      case _ => None
  }

  /** Array elements up to and including the closing bracket. */
  function ParseItems(ts: seq<Token>): (r: Option<(seq<Json>, seq<Token>)>)
    ensures r.Some? ==> |r.value.1| < |ts|
    decreases |ts|, 1
  {
    if ts == [] then None
    else if ts[0] == TCloseArr then Some(([], ts[1..]))
    else match ParseValue(ts)
      case None => None
      case Some((v, rest)) =>
        (match ParseItems(rest)
         case None => None
         case Some((vs, rest')) => Some(([v] + vs, rest')))
  }

  /** Object members up to and including the closing brace. */
  function ParseMembers(ts: seq<Token>): (r: Option<(seq<Member>, seq<Token>)>)
    ensures r.Some? ==> |r.value.1| < |ts|
    decreases |ts|, 1
  {
    if ts == [] then None
    else if ts[0] == TCloseObj then Some(([], ts[1..]))
    else if !ts[0].TKey? then None
    else match ParseValue(ts[1..])
      case None => None
      case Some((v, rest)) =>
        (match ParseMembers(rest)
         case None => None
         case Some((ms, rest')) => Some(([Member(ts[0].key, v)] + ms, rest')))
  }

  lemma {:induction false} ParseStringify(j: Json, rest: seq<Token>)
    ensures ParseValue(Stringify(j) + rest) == Some((j, rest))
    decreases j
  {
    match j
    case JArr(items) =>
      var ts := Stringify(j) + rest;
      assert ts[1..] == StringifyItems(items) + [TCloseArr] + rest;
      ParseStringifyItems(items, rest);
    case JObj(members) =>
      var ts := Stringify(j) + rest;
      assert ts[1..] == StringifyMembers(members) + [TCloseObj] + rest;
      ParseStringifyMembers(members, rest);
    case _ =>
      assert (Stringify(j) + rest)[1..] == rest;
  }

  lemma {:induction false} ParseStringifyItems(items: seq<Json>, rest: seq<Token>)
    ensures ParseItems(StringifyItems(items) + [TCloseArr] + rest) == Some((items, rest))
    decreases items
  {
    var ts := StringifyItems(items) + [TCloseArr] + rest;
    if items == [] {
      assert ts == [TCloseArr] + rest;
      assert ts[1..] == rest;
    } else {
      var tail := StringifyItems(items[1..]) + [TCloseArr] + rest;
      assert ts == Stringify(items[0]) + tail;
      ParseStringify(items[0], tail);
      ParseStringifyItems(items[1..], rest);
      assert [items[0]] + items[1..] == items;
    }
  }

  lemma {:induction false} ParseStringifyMembers(members: seq<Member>, rest: seq<Token>)
    ensures ParseMembers(StringifyMembers(members) + [TCloseObj] + rest) == Some((members, rest))
    decreases members
  {
    var ts := StringifyMembers(members) + [TCloseObj] + rest;
    if members == [] {
      assert ts == [TCloseObj] + rest;
      assert ts[1..] == rest;
    } else {
      var m := members[0];
      var tail := StringifyMembers(members[1..]) + [TCloseObj] + rest;
      assert ts == [TKey(m.key)] + (Stringify(m.value) + tail);
      assert ts[1..] == Stringify(m.value) + tail;
      ParseStringify(m.value, tail);
      ParseStringifyMembers(members[1..], rest);
      assert [Member(m.key, m.value)] + members[1..] == members;
    }
  }

  /** `JSON.parse(JSON.stringify(payload))`: a deep copy equal to the payload. */
  function JsonCopy(payload: Json): (r: Json)
    ensures r == payload
  {
    ParseStringify(payload, []);
    assert Stringify(payload) + [] == Stringify(payload);
    match ParseValue(Stringify(payload))
    case Some((v, _)) => v
    case None => assert false; JNull
  }

  /* ---------------------------------------------------------------------- */
  /* The slice                                                              */
  /* ---------------------------------------------------------------------- */

  /** The slice's state as a value. */
  datatype UserState = UserState(user: Json, isAuthenticated: bool)

  /** `initialState`. */
  const Initial: UserState := UserState(JNull, false)

  /** The flag agrees with the stored user. */
  predicate Consistent(s: UserState)
  {
    s.isAuthenticated == Truthy(s.user)
  }

  /** The `setUser` reducer. */
  function SetUserReducer(s: UserState, payload: Json): (r: UserState)
    ensures r.user == payload && (r.isAuthenticated <==> Truthy(payload))
    ensures Consistent(r)
  {
    UserState(JsonCopy(payload), Truthy(payload))
  }

  /** The `clearUser` reducer. */
  function ClearUserReducer(s: UserState): (r: UserState)
    ensures r == Initial
  {
    UserState(JNull, false)
  }

  /** The initial state is consistent, and so is every state either reducer produces. */
  lemma ReducersKeepConsistent(s: UserState, payload: Json)
    ensures Consistent(Initial)
    ensures Consistent(SetUserReducer(s, payload)) && Consistent(ClearUserReducer(s))
  {
  }

  /** Clearing twice is clearing once, and clearing after a login is the initial state. */
  lemma ClearUserLaws(s: UserState, payload: Json)
    ensures ClearUserReducer(ClearUserReducer(s)) == ClearUserReducer(s)
    ensures ClearUserReducer(SetUserReducer(s, payload)) == Initial
  {
  }

  /**
   * A login marks the user authenticated unless the payload is one of the
   * falsy values null, false, 0 or ""; logout never does.
   */
  lemma AuthenticatedIffTruthyPayload(s: UserState, payload: Json)
    ensures SetUserReducer(s, payload).isAuthenticated <==>
              !(payload == JNull || payload == JBool(false) || payload == JNum(0) || payload == JStr(""))
    ensures !ClearUserReducer(s).isAuthenticated
  {
  }

  /** `userState?.isAuthenticated || false`, with `None` for a missing slice. */
  function IsAuthenticated(userState: Option<UserState>): (r: bool)
    ensures r <==> userState.Some? && userState.value.isAuthenticated
  {
    match userState
    case None => false
    case Some(s) => s.isAuthenticated || false
  }

  /**
   * What the selector reads back from the slice: false with no slice and in
   * the initial state, the payload's truthiness after a login, and false
   * after a logout.
   */
  lemma SelectorReadsReducers(s: UserState, payload: Json)
    ensures !IsAuthenticated(None) && !IsAuthenticated(Some(Initial))
    ensures IsAuthenticated(Some(SetUserReducer(s, payload))) <==> Truthy(payload)
    ensures !IsAuthenticated(Some(ClearUserReducer(s)))
  {
  }

  /** The slice as the store holds it; the reducers assign its fields in place. */
  class UserSlice {
    var user: Json
    var isAuthenticated: bool

    function State(): UserState
      reads this
    {
      UserState(user, isAuthenticated)
    }

    constructor()
      ensures State() == Initial
    {
      user := JNull;
      isAuthenticated := false;
    }

    /** `setUser(payload)`. */
    method SetUser(payload: Json)
      modifies this
      ensures State() == SetUserReducer(old(State()), payload)
      ensures user == payload && isAuthenticated == Truthy(payload)
    {
      user := JsonCopy(payload);
      isAuthenticated := Truthy(payload);
    }

    /** `clearUser()`. */
    method ClearUser()
      modifies this
      ensures State() == ClearUserReducer(old(State())) == Initial
    {
      user := JNull;
      isAuthenticated := false;
    }
  }
}
