/**
 * The chat routes (routes/chat.js): who is calling (client address, admin
 * list, user id), the daily quota, the formatting of the model's answer, and
 * the conversation store the handlers read and write.
 *
 * The store is the `conversations` and `messages` tables as two maps keyed by
 * their serial ids.  The clock's "today", the random UUID, the answer of
 * the AI pipeline and `JSON.parse` are parameters.
 */
module Chat {
  import opened Text
  import opened Patterns
  import opened Privacy
  import Retrieval
  import Gemini
  import ClientPrivacy

  // ---------------------------------------------------------------------------
  // Client address and admin list

  /** The parts of a request the handlers read; a header is None when absent. */
  datatype Request = Request(forwardedFor: Option<string>, remoteAddress: Option<string>,
                             userIdHeader: Option<string>, userAgent: Option<string>)

  /** `s.split(',')[0]`: the text before the first comma. */
  function BeforeComma(s: string): (r: string)
    ensures |r| <= |s| && r == s[..|r|] && ',' !in r
    ensures |r| < |s| ==> s[|r|] == ','
  {
    if s == [] || s[0] == ',' then [] else [s[0]] + BeforeComma(s[1..])
  }

  /** `s.indexOf(w, i)`: the first occurrence of w at or after i. */
  function IndexFrom(s: string, w: string, i: nat): (r: Option<nat>)
    ensures r.Some? ==> i <= r.value && StartsWithAt(s, r.value, w)
                        && forall k :: i <= k < r.value ==> !StartsWithAt(s, k, w)
    ensures r.None? ==> forall k :: i <= k ==> !StartsWithAt(s, k, w)
    decreases |s| - i
  {
    if i + |w| > |s| then None
    else if StartsWithAt(s, i, w) then Some(i)
    else IndexFrom(s, w, i + 1)
  }

  /** `s.replace(w, '')` with a string pattern: only the first occurrence goes. */
  function RemoveFirst(s: string, w: string): (r: string)
    ensures forall c :: c in r ==> c in s
    ensures IndexFrom(s, w, 0).None? ==> r == s
    ensures IndexFrom(s, w, 0).Some? ==>
              var k := IndexFrom(s, w, 0).value; |r| == |s| - |w| && r == s[..k] + s[k + |w|..]
  {
    match IndexFrom(s, w, 0)
    case None => s
    case Some(k) =>
      var r := s[..k] + s[k + |w|..];
      assert forall c :: c in r ==> c in s[..k] || c in s[k + |w|..];
      r
  }

  /** When w first occurs right after a, `(a + w + b).replace(w, '')` is a + b. */
  lemma RemoveFirstSplit(a: string, w: string, b: string)
    requires forall k :: 0 <= k < |a| ==> !StartsWithAt(a + w + b, k, w)
    ensures RemoveFirst(a + w + b, w) == a + b
  {
    var s := a + w + b;
    assert s[|a|..|a| + |w|] == w;
    assert StartsWithAt(s, |a|, w);
    var r := IndexFrom(s, w, 0);
    assert r.Some? && r.value <= |a|;
    assert s[..|a|] == a && s[|a| + |w|..] == b;
  }

  const MappedPrefix := "::ffff:"

  /** `getClientIP`: the first `x-forwarded-for` entry, else the socket's address, IPv4-mapped prefix removed. */
  function GetClientIp(req: Request): (ip: string)
    ensures !Present(req.forwardedFor) && !Present(req.remoteAddress) ==> ip == "unknown"
    ensures Present(req.forwardedFor) ==> ip == "unknown" || ',' !in ip
  {
    var raw := if Present(req.forwardedFor) then Some(BeforeComma(req.forwardedFor.value)) else req.remoteAddress;
    if Present(raw) && Contains(raw.value, MappedPrefix) then RemoveFirst(raw.value, MappedPrefix)
    else if Present(raw) then raw.value
    else "unknown"
  }

  /**
   * Where the address comes from: the first `x-forwarded-for` entry when the
   * header is present, whatever the socket says; the socket's address otherwise.
   */
  lemma ClientIpSource(req: Request, first: string, rest: string)
    requires first != "" && ',' !in first && !Contains(first, MappedPrefix)
    requires rest == [] || rest[0] == ','
    ensures req.forwardedFor == Some(first + rest) ==> GetClientIp(req) == first
    ensures !Present(req.forwardedFor) && req.remoteAddress == Some(first) ==> GetClientIp(req) == first
  {
    var s := first + rest;
    var r := BeforeComma(s);
    assert |r| >= |first| ==> r[..|first|] == first;
    assert r == s[..|first|] == first;
  }

  /** An IPv4 client seen through an IPv6 socket is reported by its IPv4 address. */
  lemma MappedAddressUnwrapped(req: Request, v4: string)
    requires !Present(req.forwardedFor) && req.remoteAddress == Some(MappedPrefix + v4)
    ensures GetClientIp(req) == v4
  {
    var s := MappedPrefix + v4;
    assert StartsWithAt(s, 0, MappedPrefix);
    assert IndexFrom(s, MappedPrefix, 0) == Some(0);
    assert s[7..] == v4;
  }

  const AdminIps: seq<string> := ["127.0.0.1", "::1", "172.27.208.1", "fe80::6a3f:628b:95bf:e21f%26"]

  predicate IsAdmin(ip: string) { ip in AdminIps }

  /** The IPv4 loopback seen through an IPv6 socket is unwrapped, and so is an admin. */
  lemma MappedLoopbackIsAdmin(req: Request)
    requires !Present(req.forwardedFor) && req.remoteAddress == Some("::ffff:127.0.0.1")
    ensures IsAdmin(GetClientIp(req))
  {
    assert MappedPrefix + "127.0.0.1" == "::ffff:127.0.0.1";
    MappedAddressUnwrapped(req, "127.0.0.1");
    assert AdminIps[0] == "127.0.0.1";
  }

  /** A request with neither header nor socket address is `unknown`, which is no admin. */
  lemma UnknownNotAdmin(req: Request)
    requires !Present(req.forwardedFor) && !Present(req.remoteAddress)
    ensures GetClientIp(req) == "unknown" && !IsAdmin(GetClientIp(req))
  {
    assert forall i :: 0 <= i < |AdminIps| ==> AdminIps[i] != "unknown" by {
      assert AdminIps[0][0] != 'u' && AdminIps[1][0] != 'u' && AdminIps[2][0] != 'u' && AdminIps[3][0] != 'u';
    }
  }

  /**
   * The admin test trusts `x-forwarded-for`: a request that names the loopback
   * address there is an admin request whatever address it came from.
   */
  lemma ForwardedLoopbackIsAdmin(req: Request)
    requires req.forwardedFor == Some("127.0.0.1")
    ensures IsAdmin(GetClientIp(req))
  {
    var f := req.forwardedFor.value;
    assert f + "" == f;
    assert ',' !in f && ':' !in f;
    NoColonNoMappedPrefix(f);
    ClientIpSource(req, f, "");
    assert AdminIps[0] == f;
  }

  lemma NoColonNoMappedPrefix(s: string)
    requires ':' !in s
    ensures !Contains(s, MappedPrefix)
  {
    forall k | 0 <= k <= |s| - |MappedPrefix|
      ensures !StartsWithAt(s, k, MappedPrefix)
    {
      assert s[k..k + 7][0] == s[k];
    }
  }

  // ---------------------------------------------------------------------------
  // User id

  /** `ip.replace(/[^a-zA-Z0-9]/g, '')` */
  function AlnumOnly(s: string): (r: string)
    ensures |r| <= |s| && forall j :: 0 <= j < |r| ==> IsAsciiAlnum(r[j])
  {
    if s == [] then [] else (if IsAsciiAlnum(s[0]) then [s[0]] else []) + AlnumOnly(s[1..])
  }

  /** An address of letters and digits only is kept whole. */
  lemma {:induction false} AlnumOnlyKeeps(s: string)
    requires forall j :: 0 <= j < |s| ==> IsAsciiAlnum(s[j])
    ensures AlnumOnly(s) == s
  {
    if s != [] {
      AlnumOnlyKeeps(s[1..]);
    }
  }

  /** Keeping letters and digits works piece by piece. */
  lemma {:induction false} AlnumOnlyConcat(a: string, b: string)
    ensures AlnumOnly(a + b) == AlnumOnly(a) + AlnumOnly(b)
    decreases |a|
  {
    if a != [] {
      assert (a + b)[0] == a[0] && (a + b)[1..] == a[1..] + b;
      var h := if IsAsciiAlnum(a[0]) then [a[0]] else [];
      assert AlnumOnly(a + b) == h + AlnumOnly(a[1..] + b);
      AlnumOnlyConcat(a[1..], b);
      assert AlnumOnly(a) == h + AlnumOnly(a[1..]);
    } else {
      assert a + b == b;
    }
  }

  /** Dots, colons and every other non-alphanumeric character are dropped. */
  lemma {:induction false} AlnumOnlyDrops(s: string)
    requires forall j :: 0 <= j < |s| ==> !IsAsciiAlnum(s[j])
    ensures AlnumOnly(s) == []
    decreases |s|
  {
    if s != [] {
      AlnumOnlyDrops(s[1..]);
    }
  }

  /** `s.split('_').pop()`: the text after the last '_', or all of s. */
  function LastSegment(s: string): (r: string)
    ensures |r| <= |s| && r == s[|s| - |r|..] && '_' !in r
    ensures |r| < |s| ==> s[|s| - |r| - 1] == '_'
    decreases |s|
  {
    if s == [] || s[|s| - 1] == '_' then [] else LastSegment(s[..|s| - 1]) + [s[|s| - 1]]
  }

  lemma {:induction false} LastSegmentAfter(a: string, b: string)
    requires '_' !in b
    ensures LastSegment(a + "_" + b) == b
    decreases |b|
  {
    var s := a + "_" + b;
    if b == [] {
      assert s[|s| - 1] == '_';
    } else {
      var b' := b[..|b| - 1];
      assert s[..|s| - 1] == a + "_" + b';
      assert '_' !in b' by {
        assert forall c :: c in b' ==> c in b;
      }
      LastSegmentAfter(a, b');
      assert b == b' + [b[|b| - 1]];
    }
  }

  /** The id built from an `x-user-id` header: the caller's address, letters and digits only, and the header's last segment. */
  function HeaderUserId(ip: string, header: string): string {
    var shortUuid := if LastSegment(header) == "" then "unknown" else LastSegment(header);
    "user_" + AlnumOnly(ip) + "_" + shortUuid
  }

  /** The id's last `_` segment is the header's last segment, or `unknown` when that is empty. */
  lemma HeaderUserIdSegment(ip: string, header: string)
    ensures var seg := LastSegment(header);
            LastSegment(HeaderUserId(ip, header)) == if seg == "" then "unknown" else seg
  {
    var seg := LastSegment(header);
    var short := if seg == "" then "unknown" else seg;
    assert '_' !in "unknown";
    assert HeaderUserId(ip, header) == ("user_" + AlnumOnly(ip)) + "_" + short;
    LastSegmentAfter("user_" + AlnumOnly(ip), short);
  }

  /**
   * The browser's id `client_<time>_<short uuid>` keeps its short uuid on the
   * server, which replaces the time by the caller's address.
   */
  lemma ClientIdOnServer(timestamp: nat, uuid: string, ip: string)
    requires '_' !in uuid && RemoveDashes(uuid) != ""
    ensures HeaderUserId(ip, ClientPrivacy.ClientUserId(timestamp, uuid))
            == "user_" + AlnumOnly(ip) + "_" + ShortUuid(uuid)
  {
    var short := ShortUuid(uuid);
    assert '_' !in short by {
      assert forall c :: c in short ==> c in RemoveDashes(uuid);
    }
    assert ClientPrivacy.ClientUserId(timestamp, uuid) == ("client_" + NatToString(timestamp)) + "_" + short;
    LastSegmentAfter("client_" + NatToString(timestamp), short);
  }

  const TwoTo31 := 0x8000_0000
  const TwoTo32 := 0x1_0000_0000

  /** JavaScript's ToInt32: the integer wrapped into [-2^31, 2^31). */
  function ToInt32(x: int): (r: int)
    ensures -TwoTo31 <= r < TwoTo31 && (r - x) % TwoTo32 == 0
  {
    (x + TwoTo31) % TwoTo32 - TwoTo31
  }

  lemma ToInt32Periodic(x: int, k: int)
    ensures ToInt32(x + k * TwoTo32) == ToInt32(x)
  {
    assert (x + k * TwoTo32 + TwoTo31) % TwoTo32 == (x + TwoTo31) % TwoTo32;
  }

  /** One round of the loop: `hash = ((hash << 5) - hash) + char; hash = hash & hash`. */
  function HashStep(hash: int, c: char): int {
    ToInt32(ToInt32(hash * 32) - hash + c as int)
  }

  function HashOf(s: string): int
    decreases |s|
  {
    if s == [] then 0 else HashStep(HashOf(s[..|s| - 1]), s[|s| - 1])
  }

  /** The polynomial hash s[0]*31^(n-1) + ... + s[n-1], unbounded. */
  function PolyHash(s: string): int
    decreases |s|
  {
    if s == [] then 0 else 31 * PolyHash(s[..|s| - 1]) + s[|s| - 1] as int
  }

  /** The loop computes the polynomial hash with base 31, wrapped to 32 bits. */
  lemma {:induction false} HashIsPolynomial(s: string)
    ensures HashOf(s) == ToInt32(PolyHash(s))
    decreases |s|
  {
    if s != [] {
      var init, c := s[..|s| - 1], s[|s| - 1] as int;
      HashIsPolynomial(init);
      var h, p := HashOf(init), PolyHash(init);
      var d := ToInt32(h * 32) - h * 32;
      ToInt32Periodic(h * 32 - h + c, d / TwoTo32);
      assert d == (d / TwoTo32) * TwoTo32;
      var e := h - p;
      assert e == (e / TwoTo32) * TwoTo32;
      ToInt32Periodic(31 * p + c, 31 * (e / TwoTo32));
    }
  }

  /** The hash loop of `generateUserId`. */
  method Hash(str: string) returns (hash: int)
    ensures hash == ToInt32(PolyHash(str))
  {
    hash := 0;
    var i := 0;
    while i < |str|
      invariant 0 <= i <= |str|
      invariant hash == HashOf(str[..i])
    {
      assert str[..i + 1][..i] == str[..i];
      var code := str[i] as int;
      hash := (ToInt32(hash * 32) - hash) + code;
      hash := ToInt32(hash);
      i := i + 1;
    }
    assert str[..i] == str;
    HashIsPolynomial(str);
  }

  function Abs(x: int): nat { if x < 0 then -x else x }

  /**
   * `generateUserId`: with an `x-user-id` header the header's id; otherwise the
   * hash of address, user agent and a fresh UUID (given) with the UUID's first
   * eight characters.
   */
  method GenerateUserId(req: Request, uuid: string) returns (id: string)
    ensures Present(req.userIdHeader) ==> id == HeaderUserId(GetClientIp(req), req.userIdHeader.value)
    ensures !Present(req.userIdHeader) ==>
              id == FallbackUserId(GetClientIp(req), if Present(req.userAgent) then req.userAgent.value else "", uuid)
  {
    var ip := GetClientIp(req);
    var userAgent := if Present(req.userAgent) then req.userAgent.value else "";
    if Present(req.userIdHeader) {
      return HeaderUserId(ip, req.userIdHeader.value);
    }
    var hash := Hash(ip + userAgent + uuid);
    id := "user_" + NatToString(Abs(hash)) + "_" + ShortUuid(uuid);
  }

  /** The id `generateUserId` builds without a header, from the hash and the UUID's short id. */
  function FallbackUserId(ip: string, userAgent: string, uuid: string): string {
    "user_" + NatToString(Abs(ToInt32(PolyHash(ip + userAgent + uuid)))) + "_" + ShortUuid(uuid)
  }

  /**
   * Without `x-user-id` every request draws a new UUID, and two UUIDs with
   * different short ids give different user ids, whatever the two hashes are.
   */
  lemma FallbackIdsDiffer(ip: string, userAgent: string, u1: string, u2: string)
    requires ShortUuid(u1) != ShortUuid(u2)
    ensures FallbackUserId(ip, userAgent, u1) != FallbackUserId(ip, userAgent, u2)
  {
    var d1 := NatToString(Abs(ToInt32(PolyHash(ip + userAgent + u1))));
    var d2 := NatToString(Abs(ToInt32(PolyHash(ip + userAgent + u2))));
    var a1, a2 := d1 + "_" + ShortUuid(u1), d2 + "_" + ShortUuid(u2);
    DigitsThenSeparator(d1, d2, ShortUuid(u1), ShortUuid(u2));
    assert FallbackUserId(ip, userAgent, u1)[5..] == a1;
    assert FallbackUserId(ip, userAgent, u2)[5..] == a2;
  }

  /** Digits end at the first `_`, so what follows it is determined. */
  lemma DigitsThenSeparator(d1: string, d2: string, s1: string, s2: string)
    requires forall j :: 0 <= j < |d1| ==> IsDigit(d1[j])
    requires forall j :: 0 <= j < |d2| ==> IsDigit(d2[j])
    ensures d1 + "_" + s1 == d2 + "_" + s2 ==> s1 == s2
  {
    var x, y := d1 + "_" + s1, d2 + "_" + s2;
    assert forall k :: 0 <= k < |d1| ==> x[k] == d1[k] && x[k] != '_';
    assert forall k :: 0 <= k < |d2| ==> y[k] == d2[k] && y[k] != '_';
    assert x[|d1|] == '_' && y[|d2|] == '_';
    assert s1 == x[|d1| + 1..] && s2 == y[|d2| + 1..];
  }

  // ---------------------------------------------------------------------------
  // The store and the daily quota

  datatype Conversation = Conversation(userId: string, title: string, isActive: bool)
  datatype StoredMessage = StoredMessage(conversationId: nat, role: string, content: Value, order: nat, day: string)

  /** Messages of `day` in any of the user's conversations: both roles, deleted conversations included. */
  function UsageIn(convs: map<nat, Conversation>, msgs: map<nat, StoredMessage>, userId: string, day: string): nat {
    |UsedBy(convs, msgs, userId, day)|
  }

  function UsedBy(convs: map<nat, Conversation>, msgs: map<nat, StoredMessage>, userId: string, day: string): set<nat> {
    set m | m in msgs && msgs[m].conversationId in convs && convs[msgs[m].conversationId].userId == userId
                      && msgs[m].day == day
  }

  /** The conversations a listing shows: the user's, active ones only. */
  function ActiveOf(convs: map<nat, Conversation>, userId: string): set<nat> {
    set c | c in convs && convs[c].userId == userId && convs[c].isActive
  }

  function Deactivated(convs: map<nat, Conversation>, id: nat): map<nat, Conversation>
    requires id in convs
  {
    convs[id := convs[id].(isActive := false)]
  }

  /** A soft delete leaves every user's daily count as it was. */
  lemma DeleteKeepsUsage(convs: map<nat, Conversation>, msgs: map<nat, StoredMessage>, id: nat, userId: string, day: string)
    requires id in convs
    ensures UsageIn(Deactivated(convs, id), msgs, userId, day) == UsageIn(convs, msgs, userId, day)
  {
    assert UsedBy(Deactivated(convs, id), msgs, userId, day) == UsedBy(convs, msgs, userId, day);
  }

  /** A soft delete hides exactly that conversation from its owner's listing. */
  lemma DeleteHidesConversation(convs: map<nat, Conversation>, id: nat, userId: string)
    requires id in convs && convs[id].userId == userId
    ensures ActiveOf(Deactivated(convs, id), userId) == ActiveOf(convs, userId) - {id}
  {
  }

  /** The user whose conversation holds the message, if the conversation exists. */
  function OwnerOf(convs: map<nat, Conversation>, x: StoredMessage): Option<string> {
    if x.conversationId in convs then Some(convs[x.conversationId].userId) else None
  }

  /** A new message counts once, for the owner of its conversation on its day, and for nobody else. */
  lemma MessageAddsOne(convs: map<nat, Conversation>, msgs: map<nat, StoredMessage>, m: nat, x: StoredMessage,
                       userId: string, day: string)
    requires m !in msgs
    ensures UsageIn(convs, msgs[m := x], userId, day)
            == UsageIn(convs, msgs, userId, day) + (if OwnerOf(convs, x) == Some(userId) && x.day == day then 1 else 0)
  {
    var before := UsedBy(convs, msgs, userId, day);
    if OwnerOf(convs, x) == Some(userId) && x.day == day {
      assert UsedBy(convs, msgs[m := x], userId, day) == before + {m};
    } else {
      assert UsedBy(convs, msgs[m := x], userId, day) == before;
    }
  }

  /** A conversation no message refers to can be added without changing anyone's count. */
  lemma EmptyConversationKeepsUsage(convs: map<nat, Conversation>, msgs: map<nat, StoredMessage>, id: nat,
                                    c: Conversation, userId: string, day: string)
    requires forall m :: m in msgs ==> msgs[m].conversationId != id
    ensures UsageIn(convs[id := c], msgs, userId, day) == UsageIn(convs, msgs, userId, day)
  {
    assert UsedBy(convs[id := c], msgs, userId, day) == UsedBy(convs, msgs, userId, day);
  }

  /** The two rows one turn of `/send` stores: the question (order 1) and the answer (order 2). */
  function WithTurn(msgs: map<nat, StoredMessage>, conversationId: nat, userMessageId: nat, answerId: nat,
                    question: Value, answer: Value, day: string): map<nat, StoredMessage>
  {
    msgs[userMessageId := StoredMessage(conversationId, "user", question, 1, day)]
        [answerId := StoredMessage(conversationId, "assistant", answer, 2, day)]
  }

  /**
   * A turn counts twice, for the owner of the conversation it is stored in, on
   * the day it is stamped with; it counts for nobody else.
   */
  lemma TurnCountsTwice(convs: map<nat, Conversation>, msgs: map<nat, StoredMessage>, conversationId: nat,
                        userMessageId: nat, answerId: nat, question: Value, answer: Value, stamp: string,
                        userId: string, day: string)
    requires userMessageId !in msgs && answerId !in msgs && userMessageId != answerId
    ensures UsageIn(convs, WithTurn(msgs, conversationId, userMessageId, answerId, question, answer, stamp), userId, day)
            == UsageIn(convs, msgs, userId, day)
               + (if conversationId in convs && convs[conversationId].userId == userId && stamp == day then 2 else 0)
  {
    var x := StoredMessage(conversationId, "user", question, 1, stamp);
    var y := StoredMessage(conversationId, "assistant", answer, 2, stamp);
    MessageAddsOne(convs, msgs, userMessageId, x, userId, day);
    MessageAddsOne(convs, msgs[userMessageId := x], answerId, y, userId, day);
  }

  /**
   * `/send` charges the conversation's owner: a user who posts into someone
   * else's conversation leaves their own count as it was.
   */
  lemma ForeignTurnIsFree(convs: map<nat, Conversation>, msgs: map<nat, StoredMessage>, conversationId: nat,
                          userMessageId: nat, answerId: nat, question: Value, answer: Value, stamp: string,
                          sender: string)
    requires userMessageId !in msgs && answerId !in msgs && userMessageId != answerId
    requires conversationId in convs && convs[conversationId].userId != sender
    ensures UsageIn(convs, WithTurn(msgs, conversationId, userMessageId, answerId, question, answer, stamp), sender, stamp)
            == UsageIn(convs, msgs, sender, stamp)
  {
    TurnCountsTwice(convs, msgs, conversationId, userMessageId, answerId, question, answer, stamp, sender, stamp);
  }

  /** One stored turn: the conversation, the two new ids, and the two texts. */
  datatype TurnRecord = TurnRecord(conversationId: nat, userMessageId: nat, answerId: nat, question: Value, answer: Value)

  /** The messages after the turns are stored one after the other, all stamped with `day`. */
  function Replay(msgs: map<nat, StoredMessage>, ts: seq<TurnRecord>, day: string): map<nat, StoredMessage>
    decreases |ts|
  {
    if ts == [] then msgs
    else
      var t := ts[|ts| - 1];
      WithTurn(Replay(msgs, ts[..|ts| - 1], day), t.conversationId, t.userMessageId, t.answerId, t.question, t.answer, day)
  }

  /** Each turn's two ids are new when it is stored, as the serial ids of the table are. */
  predicate FreshTurns(msgs: map<nat, StoredMessage>, ts: seq<TurnRecord>, day: string)
    decreases |ts|
  {
    ts == []
    || (var t, before := ts[|ts| - 1], Replay(msgs, ts[..|ts| - 1], day);
        FreshTurns(msgs, ts[..|ts| - 1], day)
        && t.userMessageId !in before && t.answerId !in before && t.userMessageId != t.answerId)
  }

  /** Turns stored in the user's own conversations raise the user's count of that day by two each. */
  lemma {:induction false} OwnTurnsCount(convs: map<nat, Conversation>, msgs: map<nat, StoredMessage>,
                                         ts: seq<TurnRecord>, userId: string, day: string)
    requires FreshTurns(msgs, ts, day)
    requires forall i :: 0 <= i < |ts| ==> ts[i].conversationId in convs && convs[ts[i].conversationId].userId == userId
    ensures UsageIn(convs, Replay(msgs, ts, day), userId, day) == UsageIn(convs, msgs, userId, day) + 2 * |ts|
    decreases |ts|
  {
    if ts != [] {
      var init, t := ts[..|ts| - 1], ts[|ts| - 1];
      OwnTurnsCount(convs, msgs, init, userId, day);
      TurnCountsTwice(convs, Replay(msgs, init, day), t.conversationId, t.userMessageId, t.answerId,
                      t.question, t.answer, day, userId, day);
    }
  }

  const DailyLimit := 10

  /** `checkDailyUsage`: the count the query returns as text, read with parseInt; 0 when the query fails. */
  function CheckDailyUsage(convs: map<nat, Conversation>, msgs: map<nat, StoredMessage>, userId: string,
                           day: string, queryFails: bool): (r: nat)
    ensures r == if queryFails then 0 else UsageIn(convs, msgs, userId, day)
  {
    if queryFails then 0
    else
      var count := UsageIn(convs, msgs, userId, day);
      ParseIntOfNat(count);
      ParseInt(NatToString(count)).value
  }

  datatype Gate = Admitted | OverLimit(dailyUsage: nat, dailyLimit: nat)

  /** The quota gate of `/send`: admins pass unchecked; others pass below the limit. */
  function QuotaGate(admin: bool, usage: nat): (g: Gate)
    ensures g.OverLimit? <==> !admin && usage >= DailyLimit
    ensures g.OverLimit? ==> g == OverLimit(usage, DailyLimit)
  {
    if !admin && usage >= DailyLimit then OverLimit(usage, DailyLimit) else Admitted
  }

  /**
   * A user id that owns no conversation has no usage, so the gate lets it
   * through: with a fresh id on every request (FallbackIdsDiffer) the daily
   * limit never applies.
   */
  lemma UnseenUserAdmitted(convs: map<nat, Conversation>, msgs: map<nat, StoredMessage>, userId: string, day: string)
    requires forall c :: c in convs ==> convs[c].userId != userId
    ensures UsageIn(convs, msgs, userId, day) == 0
    ensures QuotaGate(false, CheckDailyUsage(convs, msgs, userId, day, false)).Admitted?
  {
    assert UsedBy(convs, msgs, userId, day) == {};
  }

  /**
   * Each turn stores two messages, so a non-admin who starts the day with no
   * message and sends into their own conversations passes the gate for the
   * first five turns and no more, as long as the count query succeeds and the
   * messages are stamped with the day the usage count reads.
   */
  lemma FiveTurnsADay(convs: map<nat, Conversation>, msgs: map<nat, StoredMessage>, ts: seq<TurnRecord>,
                      userId: string, day: string, t: nat)
    requires FreshTurns(msgs, ts, day) && UsageIn(convs, msgs, userId, day) == 0
    requires forall i :: 0 <= i < |ts| ==> ts[i].conversationId in convs && convs[ts[i].conversationId].userId == userId
    requires t <= |ts|
    ensures QuotaGate(false, CheckDailyUsage(convs, Replay(msgs, ts[..t], day), userId, day, false)).Admitted? <==> t < 5
  {
    FreshPrefix(msgs, ts, day, t);
    OwnTurnsCount(convs, msgs, ts[..t], userId, day);
  }

  /** The turns before a given one were stored with fresh ids too. */
  lemma {:induction false} FreshPrefix(msgs: map<nat, StoredMessage>, ts: seq<TurnRecord>, day: string, t: nat)
    requires FreshTurns(msgs, ts, day) && t <= |ts|
    ensures FreshTurns(msgs, ts[..t], day)
    decreases |ts|
  {
    if t < |ts| {
      var init := ts[..|ts| - 1];
      assert init[..t] == ts[..t];
      FreshPrefix(msgs, init, day, t);
    } else {
      assert ts[..t] == ts;
    }
  }

  // ---------------------------------------------------------------------------
  // Formatting the answer

  const FormatPatterns: seq<Pattern> := [Collapse('*'), LoneStar, NumberedHeading, CapsHeading, Collapse('\n')]

  /** The rewrites of `formatAIResponse` and the final trim. */
  function FormatText(s: string): (r: string)
    ensures NoTriple(r, '\n')
    ensures r == [] || (!IsSpace(r[0]) && !IsSpace(r[|r| - 1]))
  {
    var t := ApplyAll(FormatPatterns, s);
    assert FormatPatterns[..4] == [Collapse('*'), LoneStar, NumberedHeading, CapsHeading];
    CollapseNoTriple(ApplyAll(FormatPatterns[..4], s), '\n');
    var r := Trim(t);
    var a: nat, b: nat :| a <= b <= |t| && r == t[a..b];
    NoTripleSlice(t, '\n', a, b);
    r
  }

  /** JavaScript truthiness. */
  predicate JsTruthy(v: Value) {
    match v
    case Undefined => false
    case Null => false
    case Bool(b) => b
    case Num(n) => n != 0
    case Str(s) => s != ""
    case Obj(_) => true
  }

  predicate JsonLike(response: string) { StartsWithAt(Trim(response), 0, "{") }

  /**
   * What `formatAIResponse` returns.  `parse` is `JSON.parse` followed by
   * reading the `response` field.  When parsing throws, the catch returns the
   * answer unformatted; a truthy non-text field makes `replace` throw, and the
   * catch returns that field.
   */
  function FormattedReply(response: string, parse: string -> Retrieval.Attempt<Value>): Value {
    if JsonLike(response) then
      match parse(response)
      case Failed(_) => Str(response)
      case Done(field) =>
        if !JsTruthy(field) then Str(FormatText(response))
        else if field.Str? then Str(FormatText(field.s))
        else field
    else Str(FormatText(response))
  }

  /** `formatAIResponse`, step by step. */
  method FormatAIResponse(response: string, parse: string -> Retrieval.Attempt<Value>) returns (r: Value)
    ensures r == FormattedReply(response, parse)
    ensures !JsonLike(response) ==> r.Str? && NoTriple(r.s, '\n')
  {
    var text := response;
    if JsonLike(response) {
      match parse(response)
      case Failed(_) =>
        return Str(response);
      case Done(field) =>
        if JsTruthy(field) {
          if !field.Str? {
            return field;
          }
          text := field.s;
        }
    }
    var t := RunPatterns(FormatPatterns, text);
    t := Trim(t);
    r := Str(t);
    assert t == FormatText(text);
  }

  // ---------------------------------------------------------------------------
  // The conversation store

  /** `conversationId` as the body gives it: absent or null, a boolean, an integer, or text. */
  datatype ConversationRef = NoConversation | BoolId(b: bool) | NumberId(n: int) | TextId(s: string)

  /** `!id || id.toString().startsWith('temp_')` */
  predicate NeedsNewConversation(c: ConversationRef) {
    match c
    case NoConversation => true
    case BoolId(b) => !b
    case NumberId(n) => n == 0
    case TextId(s) => s == "" || StartsWithAt(s, 0, "temp_")
  }

  /**
   * `parseInt(id)` as a row id; None when it is NaN or negative, as for `true`
   * (read as the text "true") or `-3` (the insert then fails).
   */
  function TargetId(c: ConversationRef): (r: Option<nat>)
    ensures c.NoConversation? || c.BoolId? ==> r.None?
    ensures c.NumberId? ==> (r.Some? <==> c.n >= 0) && (r.Some? ==> r.value as int == c.n)
    ensures c.TextId? ==> (r.Some? <==> ParseInt(c.s).Some? && ParseInt(c.s).value >= 0)
                          && (r.Some? ==> ParseInt(c.s) == Some(r.value as int))
  {
    match c
    case NoConversation => None
    case BoolId(_) => None
    case NumberId(n) => if n >= 0 then Some(n as nat) else None
    case TextId(s) =>
      var v := ParseInt(s);
      if v.Some? && v.value >= 0 then Some(v.value as nat) else None
  }

  /** An id the server handed out, sent back as text, names the same conversation. */
  lemma PrintedIdTargets(n: nat)
    ensures !NeedsNewConversation(TextId(NatToString(n))) && TargetId(TextId(NatToString(n))) == Some(n)
  {
    ParseIntOfNat(n);
    var s := NatToString(n);
    assert |s| < 5 || s[..5][0] == s[0];
  }

  /** A `temp_` id asks for a new conversation and names none. */
  lemma TempIdNeedsNew(rest: string)
    ensures NeedsNewConversation(TextId("temp_" + rest)) && TargetId(TextId("temp_" + rest)) == None
  {
    var s := "temp_" + rest;
    assert s[..5] == "temp_";
    SpanUnique(s, 0, 0, IsSpace);
    assert s[0..] == s;
  }

  /** A text id is read as `parseInt` does, "0x" included: "0x1f" names conversation 31. */
  lemma HexIdTargets()
    ensures !NeedsNewConversation(TextId("0x1f")) && TargetId(TextId("0x1f")) == Some(31)
  {
    ParseIntHexExample();
  }

  /** The title of a new conversation: the first 50 characters of the message, redacted. */
  function TitleFor(message: string): string {
    ApplyAll(ServerPipeline, Prefix(message, 50) + "...")
  }

  /**
   * The answer `generateResponse(message)` gives `/send`, or None when it fails.
   * `/send` passes no history, so the default `[]` is mapped: the answer is
   * computed from the message alone, whatever the conversation holds.
   */
  function AnswerFor(b: Retrieval.Backend, lb: Gemini.LawBackend, message: string): Option<string> {
    var context := Gemini.ContextFor(b, lb, message);
    if context.Some? && lb.chat(Gemini.MapHistory([]), Gemini.SystemPrompt(context.value, message)).Done?
    then Some(lb.chat(Gemini.MapHistory([]), Gemini.SystemPrompt(context.value, message)).value)
    else None
  }

  /**
   * What `/send` answers.  A sent reply echoes `conversationId` as the request
   * gave it, or the new row id when a conversation was created; `stored` is
   * the conversation row the turn went to, which the reply does not show.
   */
  datatype SendOutcome =
    | MissingMessage
    | OverDailyLimit(dailyUsage: nat, dailyLimit: nat)
    | SendFailed
    | Sent(message: Value, messageId: nat, conversationId: ConversationRef, stored: nat)

  datatype Listing = Listing(conversations: set<nat>, dailyUsage: nat, dailyLimit: nat, isAdmin: bool)

  class ChatStore {
    var conversations: map<nat, Conversation>
    var messages: map<nat, StoredMessage>
    var nextConversationId: nat
    var nextMessageId: nat

    /**
     * Serial ids: every stored id is below the next one to be handed out; and
     * the foreign key: every message belongs to a stored conversation.
     */
    predicate Valid()
      reads this
    {
      (forall c :: c in conversations ==> c < nextConversationId)
      && (forall m :: m in messages ==> m < nextMessageId)
      && (forall m :: m in messages ==> messages[m].conversationId in conversations)
    }

    constructor ()
      ensures Valid() && conversations == map[] && messages == map[]
    {
      conversations := map[];
      messages := map[];
      nextConversationId := 1;
      nextMessageId := 1;
    }

    function DailyUsage(userId: string, day: string): nat
      reads this
    {
      UsageIn(conversations, messages, userId, day)
    }

    /** `INSERT INTO conversations (user_id, title) ... RETURNING id` */
    method CreateConversation(userId: string, title: string) returns (id: nat)
      requires Valid()
      modifies this
      ensures Valid() && id !in old(conversations)
      ensures conversations == old(conversations)[id := Conversation(userId, title, true)]
      ensures messages == old(messages)
      ensures forall u, d :: DailyUsage(u, d) == old(DailyUsage(u, d))
    {
      id := nextConversationId;
      forall u, d ensures UsageIn(conversations[id := Conversation(userId, title, true)], messages, u, d)
                          == UsageIn(conversations, messages, u, d) {
        EmptyConversationKeepsUsage(conversations, messages, id, Conversation(userId, title, true), u, d);
      }
      conversations := conversations[id := Conversation(userId, title, true)];
      nextConversationId := nextConversationId + 1;
    }

    /** `INSERT INTO messages ...`: the foreign key refuses a conversation that does not exist. */
    method InsertMessage(conversationId: nat, role: string, content: Value, order: nat, day: string)
      returns (id: Option<nat>)
      requires Valid()
      modifies this
      ensures Valid() && conversations == old(conversations)
      ensures id.None? <==> conversationId !in conversations
      ensures id.None? ==> messages == old(messages)
      ensures id.Some? ==> id.value !in old(messages)
                           && messages == old(messages)[id.value := StoredMessage(conversationId, role, content, order, day)]
      ensures id.Some? ==> forall u, d :: DailyUsage(u, d) ==
                             old(DailyUsage(u, d)) + (if conversations[conversationId].userId == u && d == day then 1 else 0)
    {
      if conversationId !in conversations {
        return None;
      }
      var x := StoredMessage(conversationId, role, content, order, day);
      forall u, d ensures UsageIn(conversations, messages[nextMessageId := x], u, d)
                          == UsageIn(conversations, messages, u, d) + (if conversations[conversationId].userId == u && d == day then 1 else 0) {
        MessageAddsOne(conversations, messages, nextMessageId, x, u, d);
      }
      id := Some(nextMessageId);
      messages := messages[nextMessageId := x];
      nextMessageId := nextMessageId + 1;
    }

    /** `POST /conversation` */
    method NewConversation(userId: string) returns (id: nat)
      requires Valid()
      modifies this
      ensures Valid() && id !in old(conversations)
      ensures conversations == old(conversations)[id := Conversation(userId, "Yeni Konuşma", true)]
      ensures messages == old(messages)
      ensures id in ActiveOf(conversations, userId)
      ensures forall u, d :: DailyUsage(u, d) == old(DailyUsage(u, d))
    {
      id := CreateConversation(userId, "Yeni Konuşma");
    }

    /** `GET /conversations`: the caller's active conversations, the daily count and the admin flag. */
    function ListConversations(userId: string, ip: string, day: string, usageQueryFails: bool): (r: Listing)
      reads this
      ensures r.conversations == ActiveOf(conversations, userId)
      ensures r.dailyUsage == (if usageQueryFails then 0 else DailyUsage(userId, day))
      ensures r.dailyLimit == DailyLimit && (r.isAdmin <==> IsAdmin(ip))
    {
      Listing(ActiveOf(conversations, userId), CheckDailyUsage(conversations, messages, userId, day, usageQueryFails),
              DailyLimit, IsAdmin(ip))
    }

    /** `DELETE /conversation/:id`: a soft delete, for the owner only. */
    method SoftDelete(id: nat, userId: string) returns (found: bool)
      requires Valid()
      modifies this
      ensures Valid()
      ensures found <==> id in old(conversations) && old(conversations)[id].userId == userId
      ensures found ==> conversations == Deactivated(old(conversations), id)
      ensures !found ==> conversations == old(conversations)
      ensures messages == old(messages)
      ensures found ==> ActiveOf(conversations, userId) == ActiveOf(old(conversations), userId) - {id}
      ensures forall u, d :: DailyUsage(u, d) == old(DailyUsage(u, d))
    {
      if id !in conversations || conversations[id].userId != userId {
        return false;
      }
      DeleteHidesConversation(conversations, id, userId);
      forall u, d ensures UsageIn(Deactivated(conversations, id), messages, u, d) == UsageIn(conversations, messages, u, d) {
        DeleteKeepsUsage(conversations, messages, id, u, d);
      }
      conversations := Deactivated(conversations, id);
      found := true;
    }

    /** The two inserts of `/send`: the user's message (order 1), then the answer (order 2). */
    method RecordTurn(conversationId: nat, question: Value, answer: Value, day: string) returns (ids: Option<(nat, nat)>)
      requires Valid()
      modifies this
      ensures Valid() && conversations == old(conversations)
      ensures ids.None? <==> conversationId !in conversations
      ensures ids.None? ==> messages == old(messages)
      ensures ids.Some? ==>
                ids.value.0 !in old(messages) && ids.value.1 !in old(messages) && ids.value.0 != ids.value.1
                && messages == WithTurn(old(messages), conversationId, ids.value.0, ids.value.1, question, answer, day)
      ensures ids.Some? ==>
                var owner := conversations[conversationId].userId;
                DailyUsage(owner, day) == old(DailyUsage(owner, day)) + 2
    {
      var before := messages;
      var userMessageId := InsertMessage(conversationId, "user", question, 1, day);
      if userMessageId.None? {
        return None;
      }
      var aiMessageId := InsertMessage(conversationId, "assistant", answer, 2, day);
      var u: nat, m: nat := userMessageId.value, aiMessageId.value;
      ids := Some((u, m));
    }

    /**
     * `POST /send`.  `b` and `lb` are the backends the AI pipeline asks, which
     * `/send` calls with the message alone, `usageQueryFails` whether the count
     * query fails, `parse` is `JSON.parse`.  `today` is the
     * UTC date the quota check asks for and `stamp` the date the database
     * gives the new messages (`DATE(created_at)` in its own time zone); the
     * two are not assumed equal.  The two messages are stored in the
     * conversation the request names, whoever owns it.
     */
    method Send(message: string, conversationId: ConversationRef, userId: string, clientIp: string,
                today: string, stamp: string,
                usageQueryFails: bool, b: Retrieval.Backend, lb: Gemini.LawBackend,
                parse: string -> Retrieval.Attempt<Value>)
      returns (r: SendOutcome)
      requires Valid()
      modifies this
      ensures Valid()
      ensures r.MissingMessage? <==> message == ""
      ensures message != "" ==>
                (r.OverDailyLimit? <==>
                   !IsAdmin(clientIp)
                   && CheckDailyUsage(old(conversations), old(messages), userId, today, usageQueryFails) >= DailyLimit)
      ensures r.OverDailyLimit? ==>
                r == OverDailyLimit(CheckDailyUsage(old(conversations), old(messages), userId, today, usageQueryFails), DailyLimit)
      ensures r.Sent? <==>
                message != "" && !r.OverDailyLimit? && AnswerFor(b, lb, message).Some?
                && (NeedsNewConversation(conversationId)
                    || (TargetId(conversationId).Some? && TargetId(conversationId).value in old(conversations)))
      ensures !r.Sent? ==> conversations == old(conversations) && messages == old(messages)
      ensures r.Sent? ==> r.message == Guarded(ServerPipeline, FormattedReply(AnswerFor(b, lb, message).value, parse))
      ensures r.Sent? ==>
                exists u: nat :: u !in old(messages) && r.messageId !in old(messages) && u != r.messageId
                  && messages == WithTurn(old(messages), r.stored, u, r.messageId,
                                          Guarded(ServerPipeline, Str(message)), r.message, stamp)
      ensures r.Sent? && NeedsNewConversation(conversationId) ==>
                r.stored !in old(conversations) && r.conversationId == NumberId(r.stored)
                && conversations == old(conversations)[r.stored := Conversation(userId, TitleFor(message), true)]
      ensures r.Sent? && !NeedsNewConversation(conversationId) ==>
                Some(r.stored) == TargetId(conversationId) && r.conversationId == conversationId
                && conversations == old(conversations)
      ensures r.Sent? ==>
                r.stored in conversations
                && var owner := conversations[r.stored].userId;
                   DailyUsage(owner, stamp) == old(DailyUsage(owner, stamp)) + 2
    {
      if message == "" {
        return MissingMessage;
      }
      var isAdminUser := IsAdmin(clientIp);
      if !isAdminUser {
        var dailyUsage := CheckDailyUsage(conversations, messages, userId, today, usageQueryFails);
        if dailyUsage >= DailyLimit {
          return OverDailyLimit(dailyUsage, DailyLimit);
        }
      }
      var reply := Gemini.GenerateResponse(b, lb, message, []);
      if reply.AiFailure? {
        return SendFailed;
      }
      r := Deliver(message, conversationId, userId, stamp, reply.response, parse);
    }

    /**
     * The part of `/send` after the answer came back: the conversation is
     * created or looked up, and the sanitized question and answer are stored.
     */
    method Deliver(message: string, conversationId: ConversationRef, userId: string, stamp: string,
                   response: string, parse: string -> Retrieval.Attempt<Value>)
      returns (r: SendOutcome)
      requires Valid()
      modifies this
      ensures Valid()
      ensures r.Sent? || r.SendFailed?
      ensures r.Sent? <==>
                NeedsNewConversation(conversationId)
                || (TargetId(conversationId).Some? && TargetId(conversationId).value in old(conversations))
      ensures !r.Sent? ==> conversations == old(conversations) && messages == old(messages)
      ensures r.Sent? ==> r.message == Guarded(ServerPipeline, FormattedReply(response, parse))
      ensures r.Sent? ==>
                exists u: nat :: u !in old(messages) && r.messageId !in old(messages) && u != r.messageId
                  && messages == WithTurn(old(messages), r.stored, u, r.messageId,
                                          Guarded(ServerPipeline, Str(message)), r.message, stamp)
      ensures r.Sent? && NeedsNewConversation(conversationId) ==>
                r.stored !in old(conversations) && r.conversationId == NumberId(r.stored)
                && conversations == old(conversations)[r.stored := Conversation(userId, TitleFor(message), true)]
      ensures r.Sent? && !NeedsNewConversation(conversationId) ==>
                Some(r.stored) == TargetId(conversationId) && r.conversationId == conversationId
                && conversations == old(conversations)
      ensures r.Sent? ==>
                r.stored in conversations
                && var owner := conversations[r.stored].userId;
                   DailyUsage(owner, stamp) == old(DailyUsage(owner, stamp)) + 2
    {
      var formattedResponse := FormatAIResponse(response, parse);
      var sanitizedResponse := SanitizeAllPersonalData(formattedResponse);
      var target := TargetId(conversationId);
      var echo := conversationId;
      if NeedsNewConversation(conversationId) {
        var sanitizedTitle := SanitizeAllPersonalData(Str(Prefix(message, 50) + "..."));
        var id := CreateConversation(userId, sanitizedTitle.s);
        target := Some(id);
        echo := NumberId(id);
      } else if target.None? || target.value !in conversations {
        return SendFailed;
      }
      var sanitizedUserMessage := SanitizeAllPersonalData(Str(message));
      var ids := RecordTurn(target.value, sanitizedUserMessage, sanitizedResponse, stamp);
      r := Sent(sanitizedResponse, ids.value.1, echo, target.value);
    }
  }
}
