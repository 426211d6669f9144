/** Replay of completed mutations by client and request id, and the fingerprint that guards it. */
module IdempotencyStore {
  import opened Wrappers

  datatype Key = Key(client: string, request: string)

  datatype Entry<R> = Entry(fingerprint: string, response: R)

  /** `outcome` is what the operation does if the store runs it: it returns a response or raises. */
  datatype Request<R, E> = Request(key: Key, fingerprint: string, outcome: Result<R, E>)

  /** A replayed reply comes from the table; a fresh or failed one means that the operation ran. */
  datatype Reply<R, E> = Fresh(response: R) | Replayed(response: R) | Conflict | Failed(error: E)
  {
    predicate Ran() { Fresh? || Failed? }
  }

  type Entries<R> = map<Key, Entry<R>>

  function Serve<R, E>(entries: Entries<R>, q: Request<R, E>): (Entries<R>, Reply<R, E>) {
    if q.key in entries then
      if entries[q.key].fingerprint != q.fingerprint then (entries, Conflict) else (entries, Replayed(entries[q.key].response))
    else
      match q.outcome
      case Success(response) => (entries[q.key := Entry(q.fingerprint, response)], Fresh(response))
      case Failure(error) => (entries, Failed(error))
  }

  class IdempotencyStore<R, E> {
    var entries: map<Key, Entry<R>>

    constructor ()
      ensures entries == map[]
    {
      entries := map[];
    }

    /** One request under the lock. */
    method Execute(q: Request<R, E>) returns (reply: Reply<R, E>)
      modifies this
      ensures (entries, reply) == Serve(old(entries), q)
    {
      if q.key in entries {
        var existing := entries[q.key];
        if existing.fingerprint != q.fingerprint {
          return Conflict;
        }
        return Replayed(existing.response);
      }
      match q.outcome
      case Failure(error) => return Failed(error);
      case Success(response) =>
        entries := entries[q.key := Entry(q.fingerprint, response)];
        return Fresh(response);
    }
  }

  // ----- every serialised history -----

  function After<R, E>(history: seq<Request<R, E>>): Entries<R> {
    if history == [] then map[]
    else Serve(After(history[..|history| - 1]), history[|history| - 1]).0
  }

  /** The reply to request i of the history. */
  function ReplyTo<R, E>(history: seq<Request<R, E>>, i: nat): Reply<R, E>
    requires i < |history|
  {
    Serve(After(history[..i]), history[i]).1
  }

  /** Request i is the one that completed key k. */
  ghost predicate Completes<R, E>(history: seq<Request<R, E>>, k: Key, i: int) {
    0 <= i < |history| && history[i].key == k && ReplyTo(history, i).Fresh?
  }

  lemma PrefixCompletes<R, E>(history: seq<Request<R, E>>, k: Key, i: nat, j: nat)
    requires i < j <= |history|
    ensures Completes(history[..j], k, i) <==> Completes(history, k, i)
    ensures ReplyTo(history[..j], i) == ReplyTo(history, i)
  {
    assert history[..j][..i] == history[..i];
  }

  /** What one request completed stays in the table. */
  lemma {:induction false} CompletedStays<R, E>(history: seq<Request<R, E>>, k: Key, i: nat)
    requires Completes(history, k, i)
    ensures k in After(history) && After(history)[k] == Entry(history[i].fingerprint, ReplyTo(history, i).response)
  {
    var n := |history| - 1;
    if i < n {
      PrefixCompletes(history, k, i, n);
      CompletedStays(history[..n], k, i);
    }
  }

  lemma {:induction false} StoredWasCompleted<R, E>(history: seq<Request<R, E>>, k: Key) returns (i: nat)
    requires k in After(history)
    ensures Completes(history, k, i)
  {
    var n := |history| - 1;
    if k in After(history[..n]) {
      i := StoredWasCompleted(history[..n], k);
      PrefixCompletes(history, k, i, n);
    } else {
      i := n;
    }
  }

  /** The table holds a key exactly when an earlier request completed it, with that request's fingerprint
      and response. */
  lemma TableIsHistory<R, E>(history: seq<Request<R, E>>, k: Key)
    ensures k in After(history) <==> exists i :: Completes(history, k, i)
    ensures forall i :: Completes(history, k, i) ==>
      k in After(history) && After(history)[k] == Entry(history[i].fingerprint, ReplyTo(history, i).response)
  {
    if k in After(history) {
      var i := StoredWasCompleted(history, k);
    }
    forall i | Completes(history, k, i)
      ensures k in After(history) && After(history)[k] == Entry(history[i].fingerprint, ReplyTo(history, i).response)
    {
      CompletedStays(history, k, i);
    }
  }

  /** Each key completes its operation at most once. */
  lemma CompletesAtMostOnce<R, E>(history: seq<Request<R, E>>, k: Key, i: nat, j: nat)
    requires Completes(history, k, i) && Completes(history, k, j)
    ensures i == j
  {
    if i < j {
      TableIsHistory(history[..j], k);
      PrefixCompletes(history, k, i, j);
    } else if j < i {
      TableIsHistory(history[..i], k);
      PrefixCompletes(history, k, j, i);
    }
  }

  /** After the completion, a request of the same key replays that response if its fingerprint matches and
      is refused if not. */
  lemma CompletionIsFinal<R, E>(history: seq<Request<R, E>>, i: nat, j: nat)
    requires i < j < |history| && Completes(history, history[j].key, i)
    ensures ReplyTo(history, j) == if history[j].fingerprint == history[i].fingerprint
                                   then Replayed(ReplyTo(history, i).response) else Conflict
  {
    TableIsHistory(history[..j], history[j].key);
    PrefixCompletes(history, history[j].key, i, j);
    assert history[..j][..i] == history[..i];
  }

  /** The operation runs exactly when no earlier request completed its key: failures leave the key free. */
  lemma RunsUntilCompleted<R, E>(history: seq<Request<R, E>>, j: nat)
    requires j < |history|
    ensures ReplyTo(history, j).Ran() <==> forall i :: 0 <= i < j ==> !Completes(history, history[j].key, i)
  {
    TableIsHistory(history[..j], history[j].key);
    forall i | 0 <= i < j
      ensures Completes(history[..j], history[j].key, i) <==> Completes(history, history[j].key, i)
    {
      PrefixCompletes(history, history[j].key, i, j);
    }
    if history[j].key in After(history[..j]) {
      var i :| Completes(history[..j], history[j].key, i);
      assert Completes(history, history[j].key, i);
    }
  }

  /** Only a completion changes the table, and only at its own key. */
  lemma OnlyCompletionsWrite<R, E>(entries: Entries<R>, q: Request<R, E>)
    ensures var (next, reply) := Serve(entries, q);
      if reply.Fresh? then next == entries[q.key := Entry(q.fingerprint, reply.response)] && q.key !in entries
      else next == entries
  {
  }

  /** The requests of one key, in their order. */
  function OnlyKey<R, E>(history: seq<Request<R, E>>, k: Key): seq<Request<R, E>> {
    if history == [] then []
    else
      var n := |history| - 1;
      OnlyKey(history[..n], k) + (if history[n].key == k then [history[n]] else [])
  }

  lemma {:induction false} OnlyKeyHoldsKey<R, E>(history: seq<Request<R, E>>, k: Key)
    ensures forall q :: q in OnlyKey(history, k) <==> q in history && q.key == k
  {
    if history != [] {
      var n := |history| - 1;
      OnlyKeyHoldsKey(history[..n], k);
      assert history == history[..n] + [history[n]];
    }
  }

  /** Keys do not interfere: what the table holds for a key depends on the requests of that key alone. */
  lemma {:induction false} KeysAreIndependent<R, E>(history: seq<Request<R, E>>, k: Key)
    ensures k in After(history) <==> k in After(OnlyKey(history, k))
    ensures k in After(history) ==> After(history)[k] == After(OnlyKey(history, k))[k]
  {
    if history != [] {
      var n := |history| - 1;
      KeysAreIndependent(history[..n], k);
      var mine := OnlyKey(history[..n], k);
      if history[n].key == k {
        assert (mine + [history[n]])[..|mine|] == mine;
      } else {
        assert mine + [] == mine;
      }
    }
  }

  // ----- the fingerprint -----

  type Bytes = seq<bv8>

  const NUL: bv8 := 0

  /** The bytes hashed for a mutation: method, path and body joined by NUL. */
  function Frame(method_: Bytes, path: Bytes, body: Bytes): Bytes {
    method_ + [NUL] + path + [NUL] + body
  }

  function FirstNul(s: Bytes): (i: nat)
    ensures i <= |s| && NUL !in s[..i] && (i < |s| ==> s[i] == NUL)
  {
    if s == [] || s[0] == NUL then 0
    else
      var i := FirstNul(s[1..]);
      assert s[..i + 1] == [s[0]] + s[1..][..i];
      i + 1
  }

  /** Reads a frame back: the parts before the first NUL, before the second, and the rest. */
  function Unframe(s: Bytes): Option<(Bytes, Bytes, Bytes)> {
    var i := FirstNul(s);
    if i == |s| then None
    else
      var rest := s[i + 1..];
      var j := FirstNul(rest);
      if j == |rest| then None else Some((s[..i], rest[..j], rest[j + 1..]))
  }

  lemma FirstNulOf(part: Bytes, rest: Bytes)
    ensures FirstNul(part + [NUL] + rest) <= |part|
    ensures NUL !in part <==> FirstNul(part + [NUL] + rest) == |part|
  {
    var s := part + [NUL] + rest;
    var i := FirstNul(s);
    assert s[|part|] == NUL;
    if i < |part| { assert part[i] == NUL; }
    if i == |part| { assert s[..i] == part; }
  }

  /** A frame reads back as what was framed exactly when neither method nor path contains a NUL. */
  lemma FrameRoundTrip(method_: Bytes, path: Bytes, body: Bytes)
    ensures Unframe(Frame(method_, path, body)) == Some((method_, path, body)) <==> NUL !in method_ && NUL !in path
  {
    var s, tail := Frame(method_, path, body), path + [NUL] + body;
    assert s == method_ + [NUL] + tail;
    FirstNulOf(method_, tail);
    FirstNulOf(path, body);
    if NUL !in method_ {
      assert s[..|method_|] == method_ && s[|method_| + 1..] == tail;
      if NUL !in path {
        assert tail[..|path|] == path && tail[|path| + 1..] == body;
      }
    }
  }

  /** So the framing is injective on the methods and paths that HTTP admits. */
  lemma FramingInjective(m1: Bytes, p1: Bytes, b1: Bytes, m2: Bytes, p2: Bytes, b2: Bytes)
    requires NUL !in m1 && NUL !in p1 && NUL !in m2 && NUL !in p2
    requires Frame(m1, p1, b1) == Frame(m2, p2, b2)
    ensures m1 == m2 && p1 == p2 && b1 == b2
  {
    FrameRoundTrip(m1, p1, b1);
    FrameRoundTrip(m2, p2, b2);
  }

  /** With a NUL in the path it is not: two different mutations share their frame. */
  lemma NulInPathCollides()
    ensures Frame([80], [47, NUL, 47], []) == Frame([80], [47], [47, NUL])
  {
    assert Frame([80], [47, NUL, 47], []) == [80, NUL, 47, NUL, 47, NUL] == Frame([80], [47], [47, NUL]);
  }

  datatype Mutation = Mutation(method_: Bytes, path: Bytes, body: Bytes) {
    predicate Sendable() { NUL !in method_ && NUL !in path }
  }

  function MutationFingerprint(hash: Bytes -> string, m: Mutation): string {
    hash(Frame(m.method_, m.path, m.body))
  }

  ghost predicate CollisionFree(hash: Bytes -> string) {
    forall a, b :: hash(a) == hash(b) ==> a == b
  }

  /** Request i completed the key of request j, for the same mutation and with the response j got. */
  ghost predicate AnsweredBy<R, E>(history: seq<Request<R, E>>, mutations: seq<Mutation>, j: nat, i: int)
    requires |mutations| == |history| && j < |history|
  {
    && Completes(history, history[j].key, i) && mutations[i] == mutations[j]
    && ReplyTo(history, j) == Replayed(ReplyTo(history, i).response)
  }

  /** Every replay answers the same mutation: an earlier request of this key with the same method, path and
      body completed with that response. */
  lemma ReplayIsSameMutation<R, E>(hash: Bytes -> string, history: seq<Request<R, E>>, mutations: seq<Mutation>, j: nat)
    requires CollisionFree(hash) && |mutations| == |history| && j < |history|
    requires forall i :: 0 <= i < |history| ==>
      mutations[i].Sendable() && history[i].fingerprint == MutationFingerprint(hash, mutations[i])
    requires ReplyTo(history, j).Replayed?
    ensures exists i :: i < j && AnsweredBy(history, mutations, j, i)
  {
    RunsUntilCompleted(history, j);
    var i :| 0 <= i < j && Completes(history, history[j].key, i);
    CompletionIsFinal(history, i, j);
    assert hash(Frame(mutations[i].method_, mutations[i].path, mutations[i].body))
        == hash(Frame(mutations[j].method_, mutations[j].path, mutations[j].body));
    FramingInjective(mutations[i].method_, mutations[i].path, mutations[i].body,
                     mutations[j].method_, mutations[j].path, mutations[j].body);
    assert AnsweredBy(history, mutations, j, i);
  }
}
