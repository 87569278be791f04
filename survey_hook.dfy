/** The client side of SurveySeal, as the `useSurveySeal` hook runs it:
    finding the deployment for a chain, the guards in front of every
    transaction, packing a ragged answer matrix into one encrypted-input batch
    and regrouping the returned handles, decoding a statistics matrix, the
    survey id reported after a creation, and the two survey listings.
    Contract calls, encryption and decryption are parameters: whatever the
    wallet, the relayer or the chain answers. */
module SurveyHook {
  import opened Common
  import opened Ledger
  import opened LedgerProperties

  /** `ethers.ZeroAddress`. */
  const ZeroAddress: string := "0x0000000000000000000000000000000000000000"

  /** `ethers.ZeroHash`: the handle of a tally cell nobody has written. */
  const ZeroHash: string := "0x0000000000000000000000000000000000000000000000000000000000000000"

  /** A ciphertext handle as the client sees it, a hex string. */
  type Handle = string

  // ---------------------------------------------------------------------------
  // Deployment lookup

  /** One entry of the generated address book; every field may be absent. */
  datatype DeploymentEntry = DeploymentEntry(address: Option<string>, chainId: Option<int>, chainName: Option<string>)

  /** The generated address book, keyed by chain id. */
  type AddressBook = map<int, DeploymentEntry>

  /** What the hook knows about the contract on the current chain. */
  datatype ContractInfo = ContractInfo(address: Option<string>, chainId: Option<int>, chainName: Option<string>)

  /** `!chainId`: undefined or zero. */
  predicate IsFalsyChainId(chainId: Option<int>) {
    chainId.None? || chainId.value == 0
  }

  /** The address book lists a usable address for this chain. */
  predicate ListedAt(chainId: Option<int>, book: AddressBook) {
    && !IsFalsyChainId(chainId)
    && chainId.value in book
    && book[chainId.value].address.Some?
    && book[chainId.value].address.value != ZeroAddress
  }

  /** `getSurveySealByChainId`: nothing for a falsy chain id; only the chain id when
      the book has no entry, an entry without an address, or the zero address;
      otherwise the entry's address and name, and its own chain id falling back
      to the one asked for. */
  function GetSurveySealByChainId(chainId: Option<int>, book: AddressBook): (r: ContractInfo)
    ensures IsFalsyChainId(chainId) ==> r == ContractInfo(None, None, None)
    ensures !IsFalsyChainId(chainId) && !ListedAt(chainId, book) ==> r == ContractInfo(None, chainId, None)
    ensures r.address.Some? <==> ListedAt(chainId, book)
    ensures r.address.Some? ==> r.address.value != ZeroAddress
    ensures ListedAt(chainId, book) ==>
              var entry := book[chainId.value];
              && r.address == entry.address
              && r.chainName == entry.chainName
              && r.chainId == (if entry.chainId.Some? then entry.chainId else chainId)
  {
    if IsFalsyChainId(chainId) then ContractInfo(None, None, None)
    else if !ListedAt(chainId, book) then ContractInfo(None, chainId, None)
    else
      var entry := book[chainId.value];
      ContractInfo(entry.address, if entry.chainId.Some? then entry.chainId else chainId, entry.chainName)
  }

  /** An address that is present and non-empty (`Boolean(address)`). */
  predicate HasAddress(address: Option<string>) {
    address.Some? && address.value != ""
  }

  /** `isDeployed`: the looked-up address is present, non-empty and not the zero address. */
  predicate IsDeployed(info: ContractInfo) {
    HasAddress(info.address) && info.address.value != ZeroAddress
  }

  /** The hook reports a deployment exactly when the book lists a non-empty,
      non-zero address for a truthy chain id. */
  lemma DeployedIffListed(chainId: Option<int>, book: AddressBook)
    ensures IsDeployed(GetSurveySealByChainId(chainId, book)) <==>
              ListedAt(chainId, book) && book[chainId.value].address.value != ""
  {
  }

  // ---------------------------------------------------------------------------
  // Guards

  /** What the guards look at when a call starts: the loading flag, the contract
      address, whether a signer, an FHEVM instance and a read-only provider are
      at hand, and what the same-chain and same-signer checks answer. */
  datatype Session = Session(
    isLoading: bool,
    contractAddress: Option<string>,
    hasSigner: bool,
    hasInstance: bool,
    hasReadonlyProvider: bool,
    sameChain: bool,
    sameSigner: bool)

  /** `createSurvey` and `submitAnswer` go on only when this holds; they return
      early when loading, without a contract address, signer or instance, or
      when the chain or the signer changed. */
  predicate MayWrite(s: Session) {
    !s.isLoading && HasAddress(s.contractAddress) && s.hasSigner && s.hasInstance && s.sameChain && s.sameSigner
  }

  /** `getStatistics` goes on only when this holds; it returns early without a
      contract address, read-only provider, instance or signer. */
  predicate MayDecrypt(s: Session) {
    HasAddress(s.contractAddress) && s.hasReadonlyProvider && s.hasInstance && s.hasSigner
  }

  /** `getAllSurveys` and `getMyAnsweredSurveys` go on only when this holds;
      they return early without a contract address or read-only provider. */
  predicate MayRead(s: Session) {
    HasAddress(s.contractAddress) && s.hasReadonlyProvider
  }

  /** How a hook call ends: it returned early without touching the chain, it
      threw (or swallowed an error), or it produced a value. */
  datatype Outcome<+T> = Skipped | Failed | Done(value: T)

  // ---------------------------------------------------------------------------
  // createSurvey and the id it reports

  /** The id the hook reports: the survey count it reads back, minus one. */
  function ReportedSurveyId(countAtRead: nat): int {
    countAtRead - 1
  }

  /** `createSurvey` on the ledger `st`: the guard, the creation transaction
      `request`, then the transactions `between` that other senders get
      committed before the hook reads the survey count back. */
  function CreateSurveyFlow(s: Session, st: LedgerState, request: Call, between: seq<Call>)
    : (r: (LedgerState, Outcome<int>))
    requires request.CreateCall?
    ensures !MayWrite(s) ==> r == (st, Skipped)
    ensures MayWrite(s) && !Step(st, request).1 ==> r == (st, Failed)
    ensures r.1.Done? <==> MayWrite(s) && Step(st, request).1
    ensures r.1.Done? ==>
              var rest := Run(Step(st, request).0, between);
              && r.0 == rest.0
              && r.1.value == |st.surveys| + Created(between, rest.1)
  {
    if !MayWrite(s) then (st, Skipped)
    else
      var first := Step(st, request);
      if !first.1 then (st, Failed)
      else
        var rest := Run(first.0, between);
        SurveyCountCountsCreations(first.0, between);
        (rest.0, Done(ReportedSurveyId(|rest.0.surveys|)))
  }

  /** The reported id is the id the ledger gave the new survey exactly when no
      other creation was committed before the count was read. */
  lemma ReportedIdIsNewIdIffNoInterleavedCreation(s: Session, st: LedgerState, request: Call, between: seq<Call>)
    requires request.CreateCall?
    requires CreateSurveyFlow(s, st, request, between).1.Done?
    ensures Create(st, request.caller, request.now, request.title, request.description,
                   request.questions, request.codes, request.counts).1 == Ok(|st.surveys|)
    ensures CreateSurveyFlow(s, st, request, between).1.value == |st.surveys| <==>
              Created(between, Run(Step(st, request).0, between).1) == 0
  {
  }

  /** A creation by someone else between the transaction and the read makes
      the hook report that survey's id instead of its own. */
  lemma InterleavedCreationShiftsReportedId(s: Session, st: LedgerState, request: Call, other: Call)
    requires request.CreateCall? && other.CreateCall?
    requires MayWrite(s)
    requires ValidSchema(request.questions, request.codes, request.counts)
    requires ValidSchema(other.questions, other.codes, other.counts)
    ensures CreateSurveyFlow(s, st, request, [other]).1 == Done(|st.surveys| + 1)
  {
    var post := Step(st, request).0;
    var rest := Run(post, [other]);
    assert [other][1..] == [];
    assert rest.1 == [true];
    assert Created([other], rest.1) == 1 + Created([], []);
  }

  // ---------------------------------------------------------------------------
  // submitAnswer: packing the batch and regrouping the handles

  /** The rows of a ragged matrix one after another, row-major. */
  function Concat<T>(rows: seq<seq<T>>): seq<T>
    decreases |rows|
  {
    if |rows| == 0 then [] else Concat(rows[..|rows| - 1]) + rows[|rows| - 1]
  }

  /** Where row `q` starts in `Concat(rows)`: the lengths of the rows before it. */
  function Offset<T>(rows: seq<seq<T>>, q: nat): nat
    requires q <= |rows|
  {
    |Concat(rows[..q])|
  }

  lemma OffsetStep<T>(rows: seq<seq<T>>, q: nat)
    requires q < |rows|
    ensures Concat(rows[..q + 1]) == Concat(rows[..q]) + rows[q]
    ensures Offset(rows, q + 1) == Offset(rows, q) + |rows[q]|
  {
    assert rows[..q + 1][..q] == rows[..q];
  }

  /** Entry `i` of row `q` sits at `Offset(rows, q) + i` of the flattened batch. */
  lemma {:induction false} ConcatAt<T>(rows: seq<seq<T>>, q: nat, i: nat)
    requires q < |rows| && i < |rows[q]|
    ensures Offset(rows, q) + i < |Concat(rows)|
    ensures Concat(rows)[Offset(rows, q) + i] == rows[q][i]
    decreases |rows|
  {
    var n := |rows| - 1;
    if q == n {
      assert rows[..q] == rows[..n];
    } else {
      ConcatAt(rows[..n], q, i);
      assert rows[..n][..q] == rows[..q];
    }
  }

  /** The loop over `encryptedIncrements` feeding `input.add32`: one entry per
      increment, row after row. */
  method Flatten<T>(rows: seq<seq<T>>) returns (batch: seq<T>)
    ensures batch == Concat(rows)
  {
    batch := [];
    for q := 0 to |rows|
      invariant batch == Concat(rows[..q])
    {
      for i := 0 to |rows[q]|
        invariant batch == Concat(rows[..q]) + rows[q][..i]
      {
        assert rows[q][..i + 1] == rows[q][..i] + [rows[q][i]];
        batch := batch + [rows[q][i]];
      }
      assert rows[q][..|rows[q]|] == rows[q];
      OffsetStep(rows, q);
    }
    assert rows[..|rows|] == rows;
  }

  /** `handles` cut into rows shaped like `rows`, row `q` taking the
      `|rows[q]|` handles from `Offset(rows, q)` on. */
  function Unflatten<S, H>(rows: seq<seq<S>>, handles: seq<H>): (r: seq<seq<H>>)
    requires |Concat(rows)| <= |handles|
    ensures |r| == |rows|
    decreases |rows|
  {
    if |rows| == 0 then []
    else
      var n := |rows| - 1;
      Unflatten(rows[..n], handles) + [handles[Offset(rows, n)..Offset(rows, n) + |rows[n]|]]
  }

  /** Row `q` of the regrouped matrix has the shape of `rows[q]` and holds the
      handles from `Offset(rows, q)` on. */
  lemma {:induction false} UnflattenAt<S, H>(rows: seq<seq<S>>, handles: seq<H>, q: nat)
    requires |Concat(rows)| <= |handles|
    requires q < |rows|
    ensures Offset(rows, q) + |rows[q]| <= |handles|
    ensures Unflatten(rows, handles)[q] == handles[Offset(rows, q)..Offset(rows, q) + |rows[q]|]
    decreases |rows|
  {
    var n := |rows| - 1;
    OffsetStep(rows, n);
    assert rows[..n + 1] == rows;
    if q < n {
      UnflattenAt(rows[..n], handles, q);
      assert rows[..n][..q] == rows[..q];
      assert Offset(rows[..n], q) == Offset(rows, q);
      OffsetStep(rows, q);
      OffsetsGrow(rows, q + 1, n);
    }
  }

  lemma {:induction false} OffsetsGrow<T>(rows: seq<seq<T>>, p: nat, q: nat)
    requires p <= q <= |rows|
    ensures Offset(rows, p) <= Offset(rows, q)
    decreases q - p
  {
    if p < q {
      OffsetStep(rows, p);
      OffsetsGrow(rows, p + 1, q);
    }
  }

  /** Regrouping the flattened batch gives back the original matrix. */
  lemma {:induction false} UnflattenConcat<T>(rows: seq<seq<T>>)
    ensures Unflatten(rows, Concat(rows)) == rows
  {
    var r := Unflatten(rows, Concat(rows));
    forall q | 0 <= q < |rows|
      ensures r[q] == rows[q]
    {
      RowOfConcat(rows, q);
    }
  }

  lemma {:induction false} RowOfConcat<T>(rows: seq<seq<T>>, q: nat)
    requires q < |rows|
    ensures Unflatten(rows, Concat(rows))[q] == rows[q]
  {
    var flat := Concat(rows);
    UnflattenAt(rows, flat, q);
    var row := flat[Offset(rows, q)..Offset(rows, q) + |rows[q]|];
    forall i | 0 <= i < |rows[q]|
      ensures row[i] == rows[q][i]
    {
      ConcatAt(rows, q, i);
    }
  }

  /** The loop that builds `handles2D` with a running `handleIndex`. It fails
      (`ethers.hexlify(undefined)` throws) as soon as the handles run out;
      otherwise it returns the regrouped matrix and the final index. */
  method Regroup<S, H>(rows: seq<seq<S>>, handles: seq<H>) returns (r: Option<seq<seq<H>>>, handleIndex: nat)
    ensures r.None? <==> |handles| < |Concat(rows)|
    ensures r.Some? ==> r.value == Unflatten(rows, handles) && handleIndex == |Concat(rows)|
  {
    var handles2D: seq<seq<H>> := [];
    handleIndex := 0;
    var q := 0;
    while q < |rows|
      invariant q <= |rows|
      invariant handleIndex == Offset(rows, q) <= |handles|
      invariant handles2D == Unflatten(rows[..q], handles)
    {
      var questionHandles: seq<H> := [];
      var i := 0;
      while i < |rows[q]|
        invariant i <= |rows[q]|
        invariant handleIndex == Offset(rows, q) + i <= |handles|
        invariant questionHandles == handles[Offset(rows, q)..handleIndex]
      {
        if handleIndex >= |handles| {
          ConcatAt(rows, q, i);
          return None, handleIndex;
        }
        questionHandles := questionHandles + [handles[handleIndex]];
        handleIndex := handleIndex + 1;
        i := i + 1;
      }
      OffsetStep(rows, q);
      assert rows[..q + 1][..q] == rows[..q];
      handles2D := handles2D + [questionHandles];
      q := q + 1;
    }
    assert rows[..|rows|] == rows;
    return Some(handles2D), handleIndex;
  }

  /** `submitAnswer` up to the contract call: the guard, the batch handed to
      the encrypted input, and the handle matrix sent with the proof.
      `encrypt` is what `input.encrypt()` answers for a batch. */
  method PrepareAnswer(s: Session, increments: seq<seq<int>>, encrypt: seq<int> -> seq<Handle>)
    returns (r: Outcome<seq<seq<Handle>>>)
    ensures r.Skipped? <==> !MayWrite(s)
    ensures r.Failed? <==> MayWrite(s) && |encrypt(Concat(increments))| < |Concat(increments)|
    ensures r.Done? ==> r.value == Unflatten(increments, encrypt(Concat(increments)))
  {
    if !MayWrite(s) {
      return Skipped;
    }
    var batch := Flatten(increments);
    var handles := encrypt(batch);
    var regrouped, _ := Regroup(increments, handles);
    if regrouped.None? {
      return Failed;
    }
    return Done(regrouped.value);
  }

  /** When the relayer returns one handle per batch entry, in order, the
      contract receives at every (question, option) the handle of exactly the
      increment the user gave for it. `content` stands for what a handle encrypts. */
  lemma RegroupedHandleCarriesItsIncrement(increments: seq<seq<int>>, handles: seq<Handle>, content: Handle -> int)
    requires |handles| == |Concat(increments)|
    requires forall k :: 0 <= k < |handles| ==> content(handles[k]) == Concat(increments)[k]
    ensures |Unflatten(increments, handles)| == |increments|
    ensures forall q :: 0 <= q < |increments| ==>
              && |Unflatten(increments, handles)[q]| == |increments[q]|
              && forall i :: 0 <= i < |increments[q]| ==> content(Unflatten(increments, handles)[q][i]) == increments[q][i]
  {
    var r := Unflatten(increments, handles);
    forall q | 0 <= q < |increments|
      ensures |r[q]| == |increments[q]|
      ensures forall i :: 0 <= i < |increments[q]| ==> content(r[q][i]) == increments[q][i]
    {
      UnflattenAt(increments, handles, q);
      forall i | 0 <= i < |increments[q]|
        ensures content(r[q][i]) == increments[q][i]
      {
        ConcatAt(increments, q, i);
      }
    }
  }

  // ---------------------------------------------------------------------------
  // getStatistics: decoding the handle matrix

  /** What `userDecrypt` does for one handle: a bigint for it, something else
      under its key, or an exception. */
  datatype DecryptReply = BigIntValue(value: int) | OtherValue | Threw

  /** The count shown for a handle: 0 for the zero hash, the decrypted bigint,
      0 when the reply under the handle is not a bigint. */
  function CellValue(h: Handle, decrypt: Handle -> DecryptReply): int {
    if h == ZeroHash then 0
    else match decrypt(h)
      case BigIntValue(v) => v
      case _ => 0
  }

  /** Decrypting this handle throws. */
  predicate Fails(h: Handle, decrypt: Handle -> DecryptReply) {
    h != ZeroHash && decrypt(h).Threw?
  }

  /** The handles of `hs` other than the zero hash, in order. */
  function NonZero(hs: seq<Handle>): (r: seq<Handle>)
    ensures forall k :: 0 <= k < |r| ==> r[k] != ZeroHash
    ensures forall h {:trigger multiset(r)[h]} :: multiset(r)[h] == if h == ZeroHash then 0 else multiset(hs)[h]
    decreases |hs|
  {
    if |hs| == 0 then []
    else
      var prefix := hs[..|hs| - 1];
      var last := hs[|hs| - 1];
      assert hs == prefix + [last];
      var kept := NonZero(prefix);
      SkipZeroStepCounts(prefix, last, kept);
      kept + (if last == ZeroHash then [] else [last])
  }

  /** One more handle keeps the skip's counts right: a non-zero handle is
      counted once more, the zero hash not at all. */
  lemma SkipZeroStepCounts(prefix: seq<Handle>, last: Handle, kept: seq<Handle>)
    requires forall h {:trigger multiset(kept)[h]} :: multiset(kept)[h] == if h == ZeroHash then 0 else multiset(prefix)[h]
    ensures forall h {:trigger multiset(kept + (if last == ZeroHash then [] else [last]))[h]} ::
              multiset(kept + (if last == ZeroHash then [] else [last]))[h]
                == if h == ZeroHash then 0 else multiset(prefix + [last])[h]
  {
    forall h
      ensures multiset(kept + (if last == ZeroHash then [] else [last]))[h]
                == if h == ZeroHash then 0 else multiset(prefix + [last])[h]
    {
      assert multiset(prefix + [last])[h] == multiset(prefix)[h] + multiset([last])[h];
      if last == ZeroHash {
        assert kept + [] == kept;
      } else {
        assert multiset(kept + [last])[h] == multiset(kept)[h] + multiset([last])[h];
      }
    }
  }

  /** Some handle of the row makes decryption throw. */
  predicate RowFails(row: seq<Handle>, decrypt: Handle -> DecryptReply) {
    exists i :: 0 <= i < |row| && Fails(row[i], decrypt)
  }

  /** Some cell of the matrix makes decryption throw. */
  predicate SomeCellFails(stats: seq<seq<Handle>>, decrypt: Handle -> DecryptReply) {
    exists q :: 0 <= q < |stats| && RowFails(stats[q], decrypt)
  }

  /** `values` holds the count shown for each handle of `row`. */
  predicate RowDecodesTo(row: seq<Handle>, decrypt: Handle -> DecryptReply, values: seq<int>) {
    |values| == |row| && forall i :: 0 <= i < |row| ==> values[i] == CellValue(row[i], decrypt)
  }

  /** `m` has the shape of `stats` and holds the count shown for each handle. */
  predicate DecodesTo(stats: seq<seq<Handle>>, decrypt: Handle -> DecryptReply, m: seq<seq<int>>) {
    |m| == |stats| && forall q :: 0 <= q < |stats| ==> RowDecodesTo(stats[q], decrypt, m[q])
  }

  lemma {:induction false} NonZeroAppend(a: seq<Handle>, b: seq<Handle>)
    ensures NonZero(a + b) == NonZero(a) + NonZero(b)
    decreases |b|
  {
    if |b| > 0 {
      var n := |b| - 1;
      NonZeroAppend(a, b[..n]);
      assert (a + b)[..|a + b| - 1] == a + b[..n];
    } else {
      assert a + b == a;
    }
  }

  /** The inner loop of the decoder over one question's handles: the counts,
      or `None` when a decryption throws, and the handles sent to `userDecrypt`. */
  method DecodeRow(row: seq<Handle>, decrypt: Handle -> DecryptReply)
    returns (values: Option<seq<int>>, sent: seq<Handle>)
    ensures values.None? <==> RowFails(row, decrypt)
    ensures values.Some? ==> RowDecodesTo(row, decrypt, values.value) && sent == NonZero(row)
    ensures forall k :: 0 <= k < |sent| ==> sent[k] != ZeroHash
  {
    var questionStats: seq<int> := [];
    sent := [];
    var i := 0;
    while i < |row|
      invariant i <= |row|
      invariant |questionStats| == i
      invariant forall j :: 0 <= j < i ==> questionStats[j] == CellValue(row[j], decrypt)
      invariant forall j :: 0 <= j < i ==> !Fails(row[j], decrypt)
      invariant sent == NonZero(row[..i])
    {
      var handle := row[i];
      assert row[..i + 1][..i] == row[..i];
      if handle == ZeroHash {
        questionStats := questionStats + [0];
        i := i + 1;
        continue;
      }
      sent := sent + [handle];
      var reply := decrypt(handle);
      if reply.Threw? {
        assert Fails(row[i], decrypt);
        return None, sent;
      }
      questionStats := questionStats + [if reply.BigIntValue? then reply.value else 0];
      i := i + 1;
    }
    assert row[..|row|] == row;
    return Some(questionStats), sent;
  }

  /** The double loop of the decoder: the count matrix, or `None` when a
      decryption throws, and the handles sent to `userDecrypt`, in order. */
  method DecodeMatrix(stats: seq<seq<Handle>>, decrypt: Handle -> DecryptReply)
    returns (r: Option<seq<seq<int>>>, requested: seq<Handle>)
    ensures r.None? <==> SomeCellFails(stats, decrypt)
    ensures r.Some? ==> DecodesTo(stats, decrypt, r.value) && requested == NonZero(Concat(stats))
    ensures forall k :: 0 <= k < |requested| ==> requested[k] != ZeroHash
  {
    requested := [];
    var decoded: seq<seq<int>> := [];
    var q := 0;
    while q < |stats|
      invariant q <= |stats|
      invariant |decoded| == q
      invariant forall p :: 0 <= p < q ==> RowDecodesTo(stats[p], decrypt, decoded[p])
      invariant forall p :: 0 <= p < q ==> !RowFails(stats[p], decrypt)
      invariant requested == NonZero(Concat(stats[..q]))
      invariant forall k :: 0 <= k < |requested| ==> requested[k] != ZeroHash
    {
      var questionStats, sent := DecodeRow(stats[q], decrypt);
      requested := requested + sent;
      if questionStats.None? {
        assert RowFails(stats[q], decrypt);
        return None, requested;
      }
      OffsetStep(stats, q);
      NonZeroAppend(Concat(stats[..q]), stats[q]);
      decoded := decoded + [questionStats.value];
      q := q + 1;
    }
    assert stats[..|stats|] == stats;
    return Some(decoded), requested;
  }

  /** `getStatistics` after the guard: `fetched` is the contract's handle matrix
      (`None` when the call reverts), `signed` whether a decryption signature
      could be loaded or made, `decrypt` the relayer's answers. Returns the
      count matrix and the handles sent to `userDecrypt`, in order. */
  method DecodeStatistics(s: Session, fetched: Option<seq<seq<Handle>>>, signed: bool,
                          decrypt: Handle -> DecryptReply)
    returns (r: Option<seq<seq<int>>>, requested: seq<Handle>)
    ensures !MayDecrypt(s) || fetched.None? || |fetched.value| == 0 || !signed ==> r.None? && requested == []
    ensures r.None? <==>
              !MayDecrypt(s) || fetched.None? || |fetched.value| == 0 || !signed || SomeCellFails(fetched.value, decrypt)
    ensures r.Some? ==> DecodesTo(fetched.value, decrypt, r.value)
    ensures r.Some? ==> requested == NonZero(Concat(fetched.value))
    ensures forall k :: 0 <= k < |requested| ==> requested[k] != ZeroHash
  {
    if !MayDecrypt(s) || fetched.None? || |fetched.value| == 0 || !signed {
      return None, [];
    }
    r, requested := DecodeMatrix(fetched.value, decrypt);
  }

  /** With a relayer that decrypts every non-sentinel handle to its plaintext,
      the count shown for a tally cell is the cell's plaintext, and decoding it
      never fails. `render` is how the client sees a ledger handle. */
  lemma DecodedCellIsPlaintext(c: Cipher, render: Cipher -> Handle, decrypt: Handle -> DecryptReply)
    requires render(ZeroHandle) == ZeroHash
    requires forall p: u32 :: render(Enc(p)) != ZeroHash && decrypt(render(Enc(p))) == BigIntValue(p as int)
    ensures CellValue(render(c), decrypt) == Plain(c)
    ensures !Fails(render(c), decrypt)
  {
    if c.Enc? {
      assert render(Enc(c.plain)) != ZeroHash;
    }
  }

  // ---------------------------------------------------------------------------
  // Listings

  /** An entry of `getAllSurveys`. */
  datatype SurveySummary = SurveySummary(
    id: nat, creator: string, title: string, description: string, createdAt: int, isActive: bool)

  /** An entry of `getMyAnsweredSurveys`. */
  datatype AnsweredSummary = AnsweredSummary(
    id: nat, creator: string, title: string, description: string, createdAt: int)

  /** `e` is the summary of an active survey that could be read, below `count`. */
  predicate ListsActiveSurvey(count: nat, read: nat -> Option<Survey>, e: SurveySummary) {
    && e.id < count
    && read(e.id).Some?
    && read(e.id).value.isActive
    && var sv := read(e.id).value;
       e == SurveySummary(e.id, sv.creator, sv.title, sv.description, sv.createdAt, sv.isActive)
  }

  /** `getAllSurveys`: `count` is what `getSurveyCount` answers (`None` when it
      throws), `read(i)` what `getSurvey(i)` answers (`None` when it throws). */
  method GetAllSurveys(s: Session, count: Option<nat>, read: nat -> Option<Survey>)
    returns (r: seq<SurveySummary>)
    ensures !MayRead(s) || count.None? ==> r == []
    ensures forall j, k :: 0 <= j < k < |r| ==> r[j].id < r[k].id
    ensures forall k :: 0 <= k < |r| ==> count.Some? && ListsActiveSurvey(count.value, read, r[k])
    ensures MayRead(s) && count.Some? ==>
              forall i :: 0 <= i < count.value && read(i).Some? && read(i).value.isActive ==>
                exists k :: 0 <= k < |r| && r[k].id == i
  {
    r := [];
    if !MayRead(s) || count.None? {
      return;
    }
    var n := count.value;
    for i := 0 to n
      invariant forall j, k :: 0 <= j < k < |r| ==> r[j].id < r[k].id
      invariant forall k :: 0 <= k < |r| ==> r[k].id < i && ListsActiveSurvey(n, read, r[k])
      invariant forall m :: 0 <= m < i && read(m).Some? && read(m).value.isActive ==>
                  exists k :: 0 <= k < |r| && r[k].id == m
    {
      ghost var before := r;
      var survey := read(i);
      if survey.Some? && survey.value.isActive {
        var sv := survey.value;
        r := r + [SurveySummary(i, sv.creator, sv.title, sv.description, sv.createdAt, sv.isActive)];
      }
      forall m | 0 <= m < i + 1 && read(m).Some? && read(m).value.isActive
        ensures exists k :: 0 <= k < |r| && r[k].id == m
      {
        if m < i {
          var k :| 0 <= k < |before| && before[k].id == m;
          assert r[k] == before[k];
        } else {
          assert r[|r| - 1].id == m;
        }
      }
    }
  }

  /** `a` comes before `b` in the answered list: newer first, and among
      surveys created at the same time the lower id first (the sort is stable
      and the list is built in increasing id order). */
  predicate Before(a: AnsweredSummary, b: AnsweredSummary) {
    a.createdAt > b.createdAt || (a.createdAt == b.createdAt && a.id < b.id)
  }

  predicate SortedByDate(xs: seq<AnsweredSummary>) {
    forall j, k :: 0 <= j < k < |xs| ==> Before(xs[j], xs[k])
  }

  predicate DistinctIds(xs: seq<AnsweredSummary>) {
    forall j, k :: 0 <= j < k < |xs| ==> xs[j].id != xs[k].id
  }

  /** `x` put into the sorted list `s` at its place. */
  function Insert(x: AnsweredSummary, s: seq<AnsweredSummary>): (r: seq<AnsweredSummary>)
    ensures multiset(r) == multiset(s) + multiset{x}
    decreases |s|
  {
    if |s| == 0 then [x]
    else if Before(x, s[0]) then [x] + s
    else
      assert s == [s[0]] + s[1..];
      [s[0]] + Insert(x, s[1..])
  }

  lemma {:induction false} InsertSorted(x: AnsweredSummary, s: seq<AnsweredSummary>)
    requires SortedByDate(s)
    requires forall k :: 0 <= k < |s| ==> s[k].id != x.id
    ensures SortedByDate(Insert(x, s))
    decreases |s|
  {
    if |s| == 0 {
    } else if Before(x, s[0]) {
      var r := Insert(x, s);
      assert forall k :: 0 < k < |r| ==> r[k] == s[k - 1];
    } else {
      InsertSorted(x, s[1..]);
      var tail := Insert(x, s[1..]);
      forall k | 0 <= k < |tail|
        ensures Before(s[0], tail[k])
      {
        assert tail[k] in multiset(tail);
        if tail[k] != x {
          assert tail[k] in multiset(s[1..]);
          var m :| 0 <= m < |s[1..]| && s[1..][m] == tail[k];
          assert s[m + 1] == tail[k];
        }
      }
      var r := Insert(x, s);
      assert r == [s[0]] + tail;
      assert forall k :: 0 < k < |r| ==> r[k] == tail[k - 1];
    }
  }

  /** `answeredSurveys.sort((a, b) => b.createdAt - a.createdAt)`, as an insertion sort. */
  function SortByDate(xs: seq<AnsweredSummary>): (r: seq<AnsweredSummary>)
    ensures multiset(r) == multiset(xs)
    decreases |xs|
  {
    if |xs| == 0 then []
    else
      var n := |xs| - 1;
      assert xs == xs[..n] + [xs[n]];
      Insert(xs[n], SortByDate(xs[..n]))
  }

  /** A list with distinct ids comes out of the sort in `Before` order: newest
      first, ties in increasing id order. */
  lemma {:induction false} SortByDateSorted(xs: seq<AnsweredSummary>)
    requires DistinctIds(xs)
    ensures SortedByDate(SortByDate(xs))
    decreases |xs|
  {
    if |xs| > 0 {
      var n := |xs| - 1;
      var prefix := xs[..n];
      SortByDateSorted(prefix);
      var sorted := SortByDate(prefix);
      forall k | 0 <= k < |sorted|
        ensures sorted[k].id != xs[n].id
      {
        assert sorted[k] in multiset(prefix);
        var m :| 0 <= m < n && prefix[m] == sorted[k];
      }
      InsertSorted(xs[n], sorted);
    }
  }

  /** `e` is the summary of a survey below `count` that `who` answered and
      that could be read. */
  predicate ListsAnsweredSurvey(count: nat, hasAnswered: nat -> Option<bool>, read: nat -> Option<Survey>,
                                e: AnsweredSummary) {
    && e.id < count
    && hasAnswered(e.id) == Some(true)
    && read(e.id).Some?
    && var sv := read(e.id).value;
       e == AnsweredSummary(e.id, sv.creator, sv.title, sv.description, sv.createdAt)
  }

  /** The loop of `getMyAnsweredSurveys`: the readable surveys below `count`
      that the user answered, in increasing id order. */
  method CollectAnswered(count: nat, hasAnswered: nat -> Option<bool>, read: nat -> Option<Survey>)
    returns (answered: seq<AnsweredSummary>)
    ensures forall j, k :: 0 <= j < k < |answered| ==> answered[j].id < answered[k].id
    ensures forall k :: 0 <= k < |answered| ==> ListsAnsweredSurvey(count, hasAnswered, read, answered[k])
    ensures forall i :: 0 <= i < count && hasAnswered(i) == Some(true) && read(i).Some? ==>
              exists k :: 0 <= k < |answered| && answered[k].id == i
  {
    answered := [];
    for i := 0 to count
      invariant forall j, k :: 0 <= j < k < |answered| ==> answered[j].id < answered[k].id
      invariant forall k :: 0 <= k < |answered| ==>
                  answered[k].id < i && ListsAnsweredSurvey(count, hasAnswered, read, answered[k])
      invariant forall m :: 0 <= m < i && hasAnswered(m) == Some(true) && read(m).Some? ==>
                  exists k :: 0 <= k < |answered| && answered[k].id == m
    {
      ghost var before := answered;
      var flag := hasAnswered(i);
      if flag == Some(true) {
        var survey := read(i);
        if survey.Some? {
          var sv := survey.value;
          answered := answered + [AnsweredSummary(i, sv.creator, sv.title, sv.description, sv.createdAt)];
        }
      }
      forall m | 0 <= m < i + 1 && hasAnswered(m) == Some(true) && read(m).Some?
        ensures exists k :: 0 <= k < |answered| && answered[k].id == m
      {
        if m < i {
          var k :| 0 <= k < |before| && before[k].id == m;
          assert answered[k] == before[k];
        } else {
          assert answered[|answered| - 1].id == m;
        }
      }
    }
  }

  /** `getMyAnsweredSurveys` for one user: `hasAnswered(i)` and `read(i)` are what
      the contract answers for survey `i` (`None` when the call throws). */
  method GetMyAnsweredSurveys(s: Session, count: Option<nat>, hasAnswered: nat -> Option<bool>,
                              read: nat -> Option<Survey>)
    returns (r: seq<AnsweredSummary>)
    ensures !MayRead(s) || count.None? ==> r == []
    ensures forall k :: 0 <= k < |r| ==> count.Some? && ListsAnsweredSurvey(count.value, hasAnswered, read, r[k])
    ensures MayRead(s) && count.Some? ==>
              forall i :: 0 <= i < count.value && hasAnswered(i) == Some(true) && read(i).Some? ==>
                exists k :: 0 <= k < |r| && r[k].id == i
    ensures SortedByDate(r)
  {
    if !MayRead(s) || count.None? {
      return [];
    }
    var n := count.value;
    var answered := CollectAnswered(n, hasAnswered, read);
    r := SortByDate(answered);
    SortByDateSorted(answered);
    forall k | 0 <= k < |r|
      ensures ListsAnsweredSurvey(n, hasAnswered, read, r[k])
    {
      assert r[k] in multiset(answered);
    }
    forall m | 0 <= m < n && hasAnswered(m) == Some(true) && read(m).Some?
      ensures exists k :: 0 <= k < |r| && r[k].id == m
    {
      var k :| 0 <= k < |answered| && answered[k].id == m;
      assert answered[k] in multiset(r);
    }
  }
}
