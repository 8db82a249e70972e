/** Moving a file from one store to another, a chunk at a time. */
module Transfer {
  import opened Trees

  /** The bytes of a file. */
  type Bytes = string

  /** What reading `n` bytes at `off` gives. */
  function Piece(b: Bytes, off: nat, n: nat): (p: Bytes)
    ensures |p| == if off >= |b| then 0 else if off + n >= |b| then |b| - off else n
  {
    if off >= |b| then [] else if off + n >= |b| then b[off..] else b[off..off + n]
  }

  datatype ServeSplice = ServeSplice(off: nat, data: Bytes, last: bool)

  // ---------------------------------------------------------------- a file, cut into chunks

  /** The file is read on from where the chunk before ended, and only the last chunk is short. */
  ghost predicate Link(out: seq<ServeSplice>, i: nat, b: Bytes, chunk: nat)
    requires i < |out|
  {
    && out[i].off == (if i == 0 then 0 else out[i - 1].off + |out[i - 1].data|)
    && out[i].data == Piece(b, out[i].off, chunk)
    && out[i].last == (|out[i].data| < chunk)
  }

  function End(out: seq<ServeSplice>): nat {
    if out == [] then 0 else out[|out| - 1].off + |out[|out| - 1].data|
  }

  function Joined(out: seq<ServeSplice>): Bytes {
    if out == [] then [] else Joined(out[..|out| - 1]) + out[|out| - 1].data
  }

  lemma JoinOne(out: seq<ServeSplice>, b: Bytes, chunk: nat)
    requires chunk > 0 && End(out) <= |b| && Joined(out) == b[..End(out)]
    ensures var data := Piece(b, End(out), chunk);
            && Joined(out + [ServeSplice(End(out), data, |data| < chunk)]) == b[..End(out) + |data|]
            && (|data| < chunk ==> End(out) + |data| == |b|)
  {
    var next := ServeSplice(End(out), Piece(b, End(out), chunk), |Piece(b, End(out), chunk)| < chunk);
    assert (out + [next])[..|out|] == out;
  }

  /** fill: the file is read to its end, in chunks. */
  method Fill(b: Bytes, chunk: nat) returns (out: seq<ServeSplice>)
    requires chunk > 0
    ensures forall i :: 0 <= i < |out| ==> Link(out, i, b, chunk)
    ensures forall i :: 0 <= i < |out| ==> (out[i].last <==> i == |out| - 1)
    ensures Joined(out) == b
  {
    var off: nat, done := 0, false;
    out := [];
    while !done
      invariant off == End(out) <= |b|
      invariant forall i :: 0 <= i < |out| ==> Link(out, i, b, chunk)
      invariant forall i :: 0 <= i < |out| ==> (out[i].last <==> i == |out| - 1 && done)
      invariant Joined(out) == b[..off]
      invariant done ==> off == |b|
      decreases !done, |b| - off
    {
      JoinOne(out, b, chunk);
      var data := Piece(b, off, chunk);
      ghost var before := out;
      out := out + [ServeSplice(off, data, |data| < chunk)];
      forall i | 0 <= i < |before|
        ensures Link(out, i, b, chunk)
      {
        assert Link(before, i, b, chunk);
      }
      off := off + |data|;
      done := |data| < chunk;
    }
  }

  // ---------------------------------------------------------------- the server, step by step

  datatype Key = Key(hash: string, off: nat)

  datatype Response =
    | NotHave
    | Failed
    | Chunk(data: Bytes, last: bool)

  datatype Phase =
    | Asked
    | Ready
    | Holding(ch: nat)
    | Received(ch: nat, got: ServeSplice)
    | Loaded(read: ServeSplice)
    | Direct
    | Answered(rep: Response)

  /** `had` remembers, for what is said about the answer, if the file was there to be asked for. */
  datatype Req = Req(hash: string, start: nat, had: bool, phase: Phase)

  /** A channel, as the reader at its other end left it: what it reads next, until it closes. */
  datatype Reader = Reader(hash: string, off: nat, open: bool)

  /** The content store, the channels opened so far, those waiting for a request, and the requests. */
  datatype Server = Server(
    store: map<string, Bytes>,
    chans: seq<Reader>,
    pending: map<Key, seq<nat>>,
    reqs: map<nat, Req>)

  datatype Event =
    | Ask(r: nat, hash: string, start: nat)
    | Prepare(r: nat)
    | Remove(r: nat)
    | Receive(r: nat)
    | Insert(r: nat)
    | Read(r: nat, ok: bool)
    | Fallback(r: nat)
    | Save(hash: string, content: Bytes)
    | Close

  function Waiting(s: Server, k: Key): seq<nat> {
    if k in s.pending then s.pending[k] else []
  }

  function Pushed(s: Server, k: Key, ch: nat): map<Key, seq<nat>> {
    s.pending[k := Waiting(s, k) + [ch]]
  }

  function Moved(s: Server, r: nat, phase: Phase): map<nat, Req>
    requires r in s.reqs
  {
    s.reqs[r := s.reqs[r].(phase := phase)]
  }

  predicate InPhase(s: Server, e: Event)
    requires e.Prepare? || e.Remove? || e.Receive? || e.Insert? || e.Read? || e.Fallback?
  {
    && e.r in s.reqs
    && var p := s.reqs[e.r].phase;
       match e
       case Prepare(_) => p.Asked?
       case Remove(_) => p.Ready?
       case Receive(_) => p.Holding? && p.ch < |s.chans|
       case Insert(_) => p.Received?
       case Read(_, _) => p.Loaded?
       case Fallback(_) => p.Direct?
  }

  /** A request is new; a file once stored is never replaced. */
  predicate Enabled(s: Server, e: Event) {
    match e
    case Ask(r, _, _) => r !in s.reqs
    case Save(h, _) => h !in s.store
    case Close => true
    case _ => InPhase(s, e)
  }

  /** Requests for the start of a file open it; the channel is left for whoever comes first. */
  function DoPrepare(s: Server, r: nat): Server
    requires r in s.reqs
  {
    var q := s.reqs[r];
    if q.start > 0 then s.(reqs := Moved(s, r, Ready))
    else if q.hash !in s.store then s.(reqs := Moved(s, r, Answered(NotHave)))
    else s.(chans := s.chans + [Reader(q.hash, 0, true)],
            pending := Pushed(s, Key(q.hash, 0), |s.chans|),
            reqs := Moved(s, r, Ready))
  }

  function DoRemove(s: Server, r: nat): Server
    requires r in s.reqs
  {
    var k := Key(s.reqs[r].hash, s.reqs[r].start);
    var w := Waiting(s, k);
    if w == [] then s.(reqs := Moved(s, r, Direct))
    else s.(pending := s.pending[k := w[..|w| - 1]], reqs := Moved(s, r, Holding(w[|w| - 1])))
  }

  /** The reader's next chunk, and where that leaves it. A closed channel yields the zero value. */
  function DoReceive(s: Server, r: nat, pipe: nat): Server
    requires r in s.reqs && s.reqs[r].phase.Holding? && s.reqs[r].phase.ch < |s.chans|
  {
    var ch := s.reqs[r].phase.ch;
    var from := s.chans[ch];
    if !from.open || from.hash !in s.store then
      s.(reqs := Moved(s, r, Received(ch, ServeSplice(0, [], false))))
    else
      var data := Piece(s.store[from.hash], from.off, pipe);
      s.(chans := s.chans[ch := Reader(from.hash, from.off + |data|, |data| == pipe)],
         reqs := Moved(s, r, Received(ch, ServeSplice(from.off, data, |data| < pipe))))
  }

  function DoInsert(s: Server, r: nat): Server
    requires r in s.reqs && s.reqs[r].phase.Received?
  {
    var got := s.reqs[r].phase.got;
    var t := s.(reqs := Moved(s, r, Loaded(got)));
    if got.last then t
    else t.(pending := Pushed(s, Key(s.reqs[r].hash, s.reqs[r].start + |got.data|), s.reqs[r].phase.ch))
  }

  /** Store.ServeChunk. */
  function Reply(s: Server, hash: string, start: nat, direct: nat): Response {
    if hash !in s.store then NotHave
    else Chunk(Piece(s.store[hash], start, direct), |Piece(s.store[hash], start, direct)| < direct)
  }

  /** `pipe` and `direct` are the chunk sizes of the two ways to read a file. */
  function Next(s: Server, e: Event, pipe: nat, direct: nat): Server
    requires Enabled(s, e)
  {
    match e
    case Ask(r, h, start) => s.(reqs := s.reqs[r := Req(h, start, h in s.store, Asked)])
    case Prepare(r) => DoPrepare(s, r)
    case Remove(r) => DoRemove(s, r)
    case Receive(r) => DoReceive(s, r, pipe)
    case Insert(r) => DoInsert(s, r)
    case Read(r, ok) =>
      var read := s.reqs[r].phase.read;
      s.(reqs := Moved(s, r, if ok then Answered(Chunk(read.data, read.last)) else Direct))
    case Fallback(r) =>
      s.(reqs := Moved(s, r, Answered(Reply(s, s.reqs[r].hash, s.reqs[r].start, direct))))
    case Save(h, b) => s.(store := s.store[h := b])
    case Close => s.(pending := map[])
  }

  // ---------------------------------------------------------------- what every step keeps

  /** A channel that is at offset `off` of the file `hash`, and not closed. */
  ghost predicate Positioned(s: Server, ch: nat, hash: string, off: nat)
  {
    ch < |s.chans| && hash in s.store && s.chans[ch] == Reader(hash, off, true)
  }

  ghost predicate WaitingOk(s: Server, k: Key)
    requires k in s.pending
  {
    && (forall i :: 0 <= i < |s.pending[k]| ==> Positioned(s, s.pending[k][i], k.hash, k.off))
    && (forall i, j :: 0 <= i < j < |s.pending[k]| ==> s.pending[k][i] != s.pending[k][j])
  }

  predicate Owns(q: Req, ch: nat) {
    (q.phase.Holding? && q.phase.ch == ch) || (q.phase.Received? && q.phase.ch == ch && !q.phase.got.last)
  }

  ghost predicate Unlisted(s: Server, ch: nat) {
    forall k :: k in s.pending ==> ch !in s.pending[k]
  }

  /** A chunk is what reading at the offset asked for gives, and the last flag says if it came up short. */
  ghost predicate RightChunk(b: Bytes, start: nat, size: nat, data: Bytes, last: bool) {
    data == Piece(b, start, size) && last == (|data| < size)
  }

  ghost predicate RightAnswer(b: Bytes, start: nat, data: Bytes, last: bool, pipe: nat, direct: nat) {
    RightChunk(b, start, pipe, data, last) || RightChunk(b, start, direct, data, last)
  }

  /** A file that was there when the request came is found. */
  ghost predicate RightResponse(s: Server, q: Req, rep: Response, pipe: nat, direct: nat) {
    match rep
    case NotHave => !q.had
    case Failed => false
    case Chunk(data, last) => q.hash in s.store && RightAnswer(s.store[q.hash], q.start, data, last, pipe, direct)
  }

  ghost predicate ReqOk(s: Server, q: Req, pipe: nat, direct: nat)
  {
    && (q.had ==> q.hash in s.store)
    && match q.phase
    case Holding(ch) => Positioned(s, ch, q.hash, q.start) && Unlisted(s, ch)
    case Received(ch, got) =>
      && q.hash in s.store && RightChunk(s.store[q.hash], q.start, pipe, got.data, got.last)
      && (!got.last ==> Positioned(s, ch, q.hash, q.start + |got.data|) && Unlisted(s, ch))
    case Loaded(read) => q.hash in s.store && RightChunk(s.store[q.hash], q.start, pipe, read.data, read.last)
    case Answered(rep) => RightResponse(s, q, rep, pipe, direct)
    case _ => true
  }

  ghost predicate Apart(s: Server, r: nat, q: nat)
    requires r in s.reqs && q in s.reqs
  {
    forall ch :: !(Owns(s.reqs[r], ch) && Owns(s.reqs[q], ch))
  }

  ghost predicate Inv(s: Server, pipe: nat, direct: nat)
  {
    && (forall k :: k in s.pending ==> WaitingOk(s, k))
    && (forall r :: r in s.reqs ==> ReqOk(s, s.reqs[r], pipe, direct))
    && (forall r, q :: r in s.reqs && q in s.reqs && r != q ==> Apart(s, r, q))
  }

  function Init(store: map<string, Bytes>): Server {
    Server(store, [], map[], map[])
  }

  // Frames: what a step does not touch stays in order.

  ghost predicate Grows(s: Server, t: Server) {
    forall h :: h in s.store ==> h in t.store && t.store[h] == s.store[h]
  }

  ghost predicate SameChan(s: Server, t: Server, ch: nat) {
    ch < |s.chans| ==> ch < |t.chans| && t.chans[ch] == s.chans[ch]
  }

  lemma ReqKept(s: Server, t: Server, q: Req, pipe: nat, direct: nat)
    requires Grows(s, t) && ReqOk(s, q, pipe, direct)
    requires forall ch :: Owns(q, ch) ==> SameChan(s, t, ch) && Unlisted(t, ch)
    ensures ReqOk(t, q, pipe, direct)
  {
    match q.phase
    case Holding(ch) => assert Owns(q, ch);
    case Received(ch, got) => assert !got.last ==> Owns(q, ch);
    case _ =>
  }

  lemma WaitingKept(s: Server, t: Server, k: Key)
    requires Grows(s, t) && k in s.pending && k in t.pending && WaitingOk(s, k)
    requires t.pending[k] == s.pending[k]
    requires forall ch :: ch in s.pending[k] ==> SameChan(s, t, ch)
    ensures WaitingOk(t, k)
  {
    forall i | 0 <= i < |t.pending[k]|
      ensures Positioned(t, t.pending[k][i], k.hash, k.off)
    {
      assert Positioned(s, s.pending[k][i], k.hash, k.off);
      assert SameChan(s, t, s.pending[k][i]);
    }
  }

  /** Request `r` changes what it owns; everybody else owns what they did. */
  lemma ApartKept(s: Server, t: Server, r: nat)
    requires forall a, b :: a in s.reqs && b in s.reqs && a != b ==> Apart(s, a, b)
    requires r in s.reqs && t.reqs.Keys == s.reqs.Keys && forall a :: a in s.reqs && a != r ==> t.reqs[a] == s.reqs[a]
    requires forall ch, a :: a in s.reqs && a != r && Owns(t.reqs[r], ch) ==> !Owns(s.reqs[a], ch)
    ensures forall a, b :: a in t.reqs && b in t.reqs && a != b ==> Apart(t, a, b)
  {
    forall a, b | a in t.reqs && b in t.reqs && a != b
      ensures Apart(t, a, b)
    {
      assert Apart(s, a, b);
    }
  }

  /** A channel somebody owns is not waiting, and it exists. */
  lemma OwnedUnlisted(s: Server, r: nat, ch: nat, pipe: nat, direct: nat)
    requires Inv(s, pipe, direct) && r in s.reqs && Owns(s.reqs[r], ch)
    ensures Unlisted(s, ch) && ch < |s.chans|
  {
    assert ReqOk(s, s.reqs[r], pipe, direct);
  }

  /** Step of request `r` from `s` to `t`, as the other requests see it. */
  ghost predicate Undisturbed(s: Server, t: Server, r: nat) {
    && Grows(s, t)
    && r in s.reqs && t.reqs.Keys == s.reqs.Keys
    && (forall q :: q in s.reqs && q != r ==> t.reqs[q] == s.reqs[q])
    && (forall q, ch :: q in s.reqs && q != r && Owns(s.reqs[q], ch) ==> SameChan(s, t, ch) && Unlisted(t, ch))
  }

  lemma OthersKept(s: Server, t: Server, r: nat, pipe: nat, direct: nat)
    requires Inv(s, pipe, direct) && Undisturbed(s, t, r)
    requires ReqOk(t, t.reqs[r], pipe, direct)
    requires forall ch, a :: a in s.reqs && a != r && Owns(t.reqs[r], ch) ==> !Owns(s.reqs[a], ch)
    requires forall k :: k in t.pending ==> WaitingOk(t, k)
    ensures Inv(t, pipe, direct)
  {
    forall q | q in t.reqs
      ensures ReqOk(t, t.reqs[q], pipe, direct)
    {
      if q != r {
        ReqKept(s, t, s.reqs[q], pipe, direct);
      }
    }
    ApartKept(s, t, r);
  }

  // ---------------------------------------------------------------- each step

  lemma {:induction false} PrepareInv(s: Server, r: nat, pipe: nat, direct: nat)
    requires Inv(s, pipe, direct) && Enabled(s, Prepare(r))
    ensures Inv(DoPrepare(s, r), pipe, direct)
  {
    var t := DoPrepare(s, r);
    forall k | k in t.pending
      ensures WaitingOk(t, k)
    {
      if k in s.pending {
        assert WaitingOk(s, k);
      }
    }
    forall q, ch | q in s.reqs && q != r && Owns(s.reqs[q], ch)
      ensures SameChan(s, t, ch) && Unlisted(t, ch)
    {
      OwnedUnlisted(s, q, ch, pipe, direct);
    }
    OthersKept(s, t, r, pipe, direct);
  }

  /** A channel taken from the waiting list has no other owner. */
  lemma {:induction false} RemoveInv(s: Server, r: nat, pipe: nat, direct: nat)
    requires Inv(s, pipe, direct) && Enabled(s, Remove(r))
    ensures Inv(DoRemove(s, r), pipe, direct)
  {
    var t, k0 := DoRemove(s, r), Key(s.reqs[r].hash, s.reqs[r].start);
    forall k | k in t.pending
      ensures WaitingOk(t, k)
    {
      assert WaitingOk(s, k);
    }
    forall q, ch | q in s.reqs && q != r && Owns(s.reqs[q], ch)
      ensures SameChan(s, t, ch) && Unlisted(t, ch) && !Owns(t.reqs[r], ch)
    {
      OwnedUnlisted(s, q, ch, pipe, direct);
    }
    if Waiting(s, k0) != [] {
      var w := s.pending[k0];
      assert WaitingOk(s, k0) && Positioned(s, w[|w| - 1], k0.hash, k0.off);
      TakenUnlisted(s, k0);
    }
    OthersKept(s, t, r, pipe, direct);
  }

  /** It was waiting in that one place only. */
  lemma TakenUnlisted(s: Server, k0: Key)
    requires k0 in s.pending && s.pending[k0] != [] && forall k :: k in s.pending ==> WaitingOk(s, k)
    ensures var w := s.pending[k0];
            Unlisted(s.(pending := s.pending[k0 := w[..|w| - 1]]), w[|w| - 1])
  {
    var w := s.pending[k0];
    forall k | k in s.pending && k != k0
      ensures w[|w| - 1] !in s.pending[k]
    {
      assert WaitingOk(s, k) && WaitingOk(s, k0);
      assert Positioned(s, w[|w| - 1], k0.hash, k0.off);
    }
    assert WaitingOk(s, k0);
  }

  lemma ReceiveInv(s: Server, r: nat, pipe: nat, direct: nat)
    requires Inv(s, pipe, direct) && Enabled(s, Receive(r))
    ensures Inv(DoReceive(s, r, pipe), pipe, direct)
  {
    var t, mine := DoReceive(s, r, pipe), s.reqs[r].phase.ch;
    assert ReqOk(s, s.reqs[r], pipe, direct) && Owns(s.reqs[r], mine);
    forall k | k in t.pending
      ensures WaitingOk(t, k)
    {
      assert WaitingOk(s, k);
      WaitingKept(s, t, k);
    }
    forall q, ch | q in s.reqs && q != r && Owns(s.reqs[q], ch)
      ensures SameChan(s, t, ch) && Unlisted(t, ch) && !Owns(t.reqs[r], ch)
    {
      OwnedUnlisted(s, q, ch, pipe, direct);
      assert Apart(s, q, r);
    }
    OthersKept(s, t, r, pipe, direct);
  }

  lemma InsertInv(s: Server, r: nat, pipe: nat, direct: nat)
    requires Inv(s, pipe, direct) && Enabled(s, Insert(r))
    ensures Inv(DoInsert(s, r), pipe, direct)
  {
    var t, mine := DoInsert(s, r), s.reqs[r].phase.ch;
    assert ReqOk(s, s.reqs[r], pipe, direct);
    forall k | k in t.pending
      ensures WaitingOk(t, k)
    {
      if k in s.pending {
        assert WaitingOk(s, k);
      }
    }
    forall q, ch | q in s.reqs && q != r && Owns(s.reqs[q], ch)
      ensures SameChan(s, t, ch) && Unlisted(t, ch)
    {
      OwnedUnlisted(s, q, ch, pipe, direct);
      assert Apart(s, q, r);
    }
    OthersKept(s, t, r, pipe, direct);
  }

  lemma AskInv(s: Server, r: nat, hash: string, start: nat, pipe: nat, direct: nat)
    requires Inv(s, pipe, direct) && r !in s.reqs
    ensures Inv(s.(reqs := s.reqs[r := Req(hash, start, hash in s.store, Asked)]), pipe, direct)
  {
    var t := s.(reqs := s.reqs[r := Req(hash, start, hash in s.store, Asked)]);
    forall k | k in t.pending
      ensures WaitingOk(t, k)
    {
      WaitingKept(s, t, k);
    }
    forall q | q in t.reqs && q != r
      ensures ReqOk(t, t.reqs[q], pipe, direct)
    {
      forall ch | Owns(s.reqs[q], ch)
        ensures Unlisted(t, ch)
      {
        OwnedUnlisted(s, q, ch, pipe, direct);
      }
      ReqKept(s, t, s.reqs[q], pipe, direct);
    }
    forall a, b | a in t.reqs && b in t.reqs && a != b
      ensures Apart(t, a, b)
    {
      if a != r && b != r {
        assert Apart(s, a, b);
      }
    }
  }

  /** Storing a file, or closing the server. */
  lemma QuietInv(s: Server, t: Server, pipe: nat, direct: nat)
    requires Inv(s, pipe, direct) && Grows(s, t) && t.reqs == s.reqs && t.chans == s.chans
    requires t.pending == s.pending || t.pending == map[]
    ensures Inv(t, pipe, direct)
  {
    forall k | k in t.pending
      ensures WaitingOk(t, k)
    {
      WaitingKept(s, t, k);
    }
    forall q | q in t.reqs
      ensures ReqOk(t, t.reqs[q], pipe, direct)
    {
      forall ch | Owns(s.reqs[q], ch)
        ensures Unlisted(t, ch)
      {
        OwnedUnlisted(s, q, ch, pipe, direct);
      }
      ReqKept(s, t, s.reqs[q], pipe, direct);
    }
    forall a, b | a in t.reqs && b in t.reqs && a != b
      ensures Apart(t, a, b)
    {
      assert Apart(s, a, b);
    }
  }

  /** A request that owns no channel moves on. */
  lemma PhaseInv(s: Server, r: nat, phase: Phase, pipe: nat, direct: nat)
    requires Inv(s, pipe, direct) && r in s.reqs && !phase.Holding? && !phase.Received?
    requires ReqOk(s.(reqs := Moved(s, r, phase)), s.reqs[r].(phase := phase), pipe, direct)
    ensures Inv(s.(reqs := Moved(s, r, phase)), pipe, direct)
  {
    var t := s.(reqs := Moved(s, r, phase));
    forall k | k in t.pending
      ensures WaitingOk(t, k)
    {
      WaitingKept(s, t, k);
    }
    forall q, ch | q in s.reqs && q != r && Owns(s.reqs[q], ch)
      ensures Unlisted(t, ch)
    {
      OwnedUnlisted(s, q, ch, pipe, direct);
    }
    OthersKept(s, t, r, pipe, direct);
  }

  lemma {:induction false} StepInv(s: Server, e: Event, pipe: nat, direct: nat)
    requires Inv(s, pipe, direct) && Enabled(s, e)
    ensures Inv(Next(s, e, pipe, direct), pipe, direct)
  {
    match e
    case Ask(r, h, start) => AskInv(s, r, h, start, pipe, direct);
    case Prepare(r) => PrepareInv(s, r, pipe, direct);
    case Remove(r) => RemoveInv(s, r, pipe, direct);
    case Receive(r) => ReceiveInv(s, r, pipe, direct);
    case Insert(r) => InsertInv(s, r, pipe, direct);
    case Read(r, ok) =>
      assert ReqOk(s, s.reqs[r], pipe, direct);
      var read := s.reqs[r].phase.read;
      PhaseInv(s, r, if ok then Answered(Chunk(read.data, read.last)) else Direct, pipe, direct);
    case Fallback(r) =>
      PhaseInv(s, r, Answered(Reply(s, s.reqs[r].hash, s.reqs[r].start, direct)), pipe, direct);
    case Save(h, b) => QuietInv(s, Next(s, e, pipe, direct), pipe, direct);
    case Close => QuietInv(s, Next(s, e, pipe, direct), pipe, direct);
  }

  // ---------------------------------------------------------------- whole runs

  ghost predicate Legal(s: Server, events: seq<Event>, pipe: nat, direct: nat)
    decreases |events|
  {
    events == [] || (Enabled(s, events[0]) && Legal(Next(s, events[0], pipe, direct), events[1..], pipe, direct))
  }

  ghost function Run(s: Server, events: seq<Event>, pipe: nat, direct: nat): Server
    requires Legal(s, events, pipe, direct)
    decreases |events|
  {
    if events == [] then s else Run(Next(s, events[0], pipe, direct), events[1..], pipe, direct)
  }

  lemma {:induction false} RunInv(s: Server, events: seq<Event>, pipe: nat, direct: nat)
    requires Legal(s, events, pipe, direct) && Inv(s, pipe, direct)
    ensures Inv(Run(s, events, pipe, direct), pipe, direct)
    decreases |events|
  {
    if events != [] {
      StepInv(s, events[0], pipe, direct);
      RunInv(Next(s, events[0], pipe, direct), events[1..], pipe, direct);
    }
  }

  /** Whatever the interleaving of requests, every answer is the file's own bytes at the offset asked
      for, and no request ever waits on a closed channel. */
  lemma AnswersAreRight(store: map<string, Bytes>, events: seq<Event>, pipe: nat, direct: nat, r: nat)
    requires Legal(Init(store), events, pipe, direct)
    requires r in Run(Init(store), events, pipe, direct).reqs
    ensures var s := Run(Init(store), events, pipe, direct);
            var q := s.reqs[r];
            && (q.phase.Answered? ==> RightResponse(s, q, q.phase.rep, pipe, direct))
            && (q.phase.Holding? ==> q.phase.ch < |s.chans| && s.chans[q.phase.ch] == Reader(q.hash, q.start, true))
  {
    RunInv(Init(store), events, pipe, direct);
  }

  // ---------------------------------------------------------------- the client

  lemma ShortChunkEnds(b: Bytes, off: nat, data: Bytes, last: bool, pipe: nat, direct: nat)
    requires pipe > 0 && direct > 0 && off <= |b| && RightAnswer(b, off, data, last, pipe, direct)
    ensures off + |data| <= |b| && b[..off] + data == b[..off + |data|]
    ensures last ==> off + |data| == |b|
    ensures !last ==> |data| > 0
  {
  }

  lemma {:induction false} ChunkCount(length: nat, chunk: nat, full: nat, rest: nat)
    requires rest < chunk && length == full * chunk + rest
    ensures length / chunk == full
  {
    var d := length / chunk - full;
    assert length == (full + d) * chunk + length % chunk == full * chunk + d * chunk + length % chunk;
    assert d * chunk == rest - length % chunk;
    assert d >= 1 ==> d * chunk >= chunk;
    assert d <= -1 ==> d * chunk + chunk <= 0;
  }

  /** The client's state after `asked` answers: what it has written, and how far that is. */
  ghost predicate FetchedTo(b: Bytes, written: nat, output: Option<Bytes>, asked: nat, pipe: nat, direct: nat) {
    && written <= |b|
    && (output.None? <==> written == 0)
    && (output.Some? ==> output.value == b[..written])
    && (pipe == direct ==> asked * pipe == written)
  }

  /** The offset of the request after `asked` answers. */
  ghost function Offset(serve: nat -> Response, asked: nat): nat {
    if asked == 0 then 0
    else
      var off := Offset(serve, asked - 1);
      if serve(off).Chunk? then off + |serve(off).data| else off
  }

  /** fetch: ask at the offset reached so far until told that this was the last chunk. `serve` gives
      the answer to the request at each offset; every offset is asked for at most once. */
  method Fetch(ghost b: Bytes, ghost pipe: nat, ghost direct: nat, serve: nat -> Response)
    returns (ok: bool, saved: Bytes, asked: nat)
    requires pipe > 0 && direct > 0
    requires forall off: nat :: serve(off).Chunk? ==>
      RightAnswer(b, off, serve(off).data, serve(off).last, pipe, direct)
    ensures ok ==> saved == b
    ensures ok && pipe == direct ==> asked == |b| / pipe + 1
    ensures !ok ==> !serve(Offset(serve, asked)).Chunk?
  {
    var written: nat, output: Option<Bytes>, last := 0, None, false;
    saved, asked := [], 0;
    while !last
      invariant !last ==> FetchedTo(b, written, output, asked, pipe, direct)
      invariant written == Offset(serve, asked)
      invariant last ==> (if output.None? then saved else output.value) == b
      invariant last && pipe == direct ==> asked == |b| / pipe + 1
      decreases !last, |b| - written
    {
      var rep := serve(written);
      if !rep.Chunk? {
        return false, saved, asked;
      }
      ShortChunkEnds(b, written, rep.data, rep.last, pipe, direct);
      CountOne(b, written, rep.data, rep.last, asked, pipe, direct);
      if rep.last && written == 0 {
        saved := rep.data;
      } else {
        if output.None? {
          output := Some([]);
        }
        output := Some(output.value + rep.data);
      }
      written := written + |rep.data|;
      asked := asked + 1;
      last := rep.last;
    }
    ok := true;
    if output.Some? {
      saved := output.value;
    }
  }

  lemma {:induction false} CountOne(b: Bytes, off: nat, data: Bytes, last: bool, asked: nat, pipe: nat, direct: nat)
    requires pipe > 0 && off <= |b| && RightAnswer(b, off, data, last, pipe, direct)
    requires pipe == direct ==> asked * pipe == off
    ensures pipe == direct && !last ==> (asked + 1) * pipe == off + |data|
    ensures pipe == direct && last ==> asked == |b| / pipe
  {
    if pipe == direct {
      if last {
        ChunkCount(|b|, pipe, asked, |data|);
      } else {
        assert (asked + 1) * pipe == asked * pipe + pipe;
      }
    }
  }

  // ---------------------------------------------------------------- both ends

  /** Every request for a file that was in the store from the start was for a file it had. */
  lemma {:induction false} AlwaysHad(s: Server, events: seq<Event>, pipe: nat, direct: nat, hash: string)
    requires Legal(s, events, pipe, direct) && hash in s.store
    requires forall r :: r in s.reqs && s.reqs[r].hash == hash ==> s.reqs[r].had
    ensures var t := Run(s, events, pipe, direct);
            && hash in t.store && t.store[hash] == s.store[hash]
            && forall r :: r in t.reqs && t.reqs[r].hash == hash ==> t.reqs[r].had
    decreases |events|
  {
    if events != [] {
      HadStep(s, events[0], pipe, direct, hash);
      AlwaysHad(Next(s, events[0], pipe, direct), events[1..], pipe, direct, hash);
    }
  }

  lemma HadStep(s: Server, e: Event, pipe: nat, direct: nat, hash: string)
    requires Enabled(s, e) && hash in s.store
    requires forall r :: r in s.reqs && s.reqs[r].hash == hash ==> s.reqs[r].had
    ensures var t := Next(s, e, pipe, direct);
            && hash in t.store && t.store[hash] == s.store[hash]
            && forall r :: r in t.reqs && t.reqs[r].hash == hash ==> t.reqs[r].had
  {
    var t := Next(s, e, pipe, direct);
    assert forall r :: r in t.reqs && r in s.reqs ==> t.reqs[r].(phase := s.reqs[r].phase) == s.reqs[r];
  }

  /** The answers a client got are answers the server gave to its requests, unless the call failed. */
  ghost predicate ServedBy(s: Server, hash: string, serve: nat -> Response) {
    forall off: nat :: serve(off) == Failed || exists r :: r in s.reqs && IsAnswer(s.reqs[r], hash, off, serve(off))
  }

  predicate IsAnswer(q: Req, hash: string, off: nat, rep: Response) {
    q.hash == hash && q.start == off && q.phase == Answered(rep)
  }

  lemma ServedRight(store: map<string, Bytes>, events: seq<Event>, pipe: nat, direct: nat, hash: string,
                    serve: nat -> Response, off: nat)
    requires Legal(Init(store), events, pipe, direct) && hash in store
    requires ServedBy(Run(Init(store), events, pipe, direct), hash, serve)
    ensures serve(off) != NotHave
    ensures serve(off).Chunk? ==> RightAnswer(store[hash], off, serve(off).data, serve(off).last, pipe, direct)
  {
    AlwaysHad(Init(store), events, pipe, direct, hash);
    var s := Run(Init(store), events, pipe, direct);
    if serve(off) != Failed {
      var r :| r in s.reqs && IsAnswer(s.reqs[r], hash, off, serve(off));
      AnswersAreRight(store, events, pipe, direct, r);
    }
  }

  /** A file fetched from a server that serves anybody else at the same time arrives intact, so its
      hash is the one wanted. A fetch fails only when a call did. */
  method FetchFile(ghost store: map<string, Bytes>, ghost events: seq<Event>, ghost pipe: nat, ghost direct: nat,
                   ghost want: string, serve: nat -> Response)
    returns (ok: bool, saved: Bytes, asked: nat)
    requires pipe > 0 && direct > 0 && want in store && Legal(Init(store), events, pipe, direct)
    requires ServedBy(Run(Init(store), events, pipe, direct), want, serve)
    ensures ok ==> saved == store[want]
    ensures ok && pipe == direct ==> asked == |store[want]| / pipe + 1
    ensures !ok ==> serve(Offset(serve, asked)) == Failed
  {
    forall off: nat
      ensures serve(off) != NotHave
      ensures serve(off).Chunk? ==> RightAnswer(store[want], off, serve(off).data, serve(off).last, pipe, direct)
    {
      ServedRight(store, events, pipe, direct, want, serve, off);
    }
    ok, saved, asked := Fetch(store[want], pipe, direct, serve);
  }
}
