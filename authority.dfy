/**
 * Instruction authorities and the account-key list built from them
 * (authsToKeys / authToKey, present in src/BaseProgram.ts and lib/BaseProgram.js),
 * and BaseProgram's instruction builders.
 */
module Authority {
  import opened Wrappers

  /** A public key as its raw bytes, compared by value (the length is not constrained here). */
  datatype PublicKey = PublicKey(bytes: seq<Byte>)

  /**
   * One element handed to authToKey: an Account (a keypair, which signs),
   * a bare PublicKey, or any other value (rejected at run time).
   */
  datatype Signer = Account(publicKey: PublicKey) | Key(key: PublicKey) | Other

  /**
   * InstructionAuthority: one Account or PublicKey, an array of them, or
   * `{write: x}` marking a writable account.
   */
  datatype Authority = Single(signer: Signer) | Many(signers: seq<Signer>) | Write(target: Signer)

  /** The account meta a TransactionInstruction carries for each authority. */
  datatype InstructionKey = InstructionKey(pubkey: PublicKey, isSigner: bool, isWritable: bool)

  /** An element of the flattened authority list with the writability the caller asked for. */
  datatype Entry = Entry(signer: Signer, writable: bool)

  /** A TransactionInstruction: its account metas, the program it addresses and its data bytes. */
  datatype TransactionInstruction = TransactionInstruction(keys: seq<InstructionKey>, programId: PublicKey, data: seq<Byte>)

  const InvalidAuthority := "Invalid instruction authority. Expect Account | PublicKey"

  /** The public key a valid signer stands for. */
  function KeyOf(s: Signer): PublicKey
    requires !s.Other?
  {
    if s.Account? then s.publicKey else s.key
  }

  /**
   * authToKey: an Account gives its public key as a signer, a PublicKey gives
   * itself as a non-signer, anything else throws.
   */
  function AuthToKey(s: Signer, isWritable: bool): (r: Result<InstructionKey, string>)
    ensures r.Success? <==> !s.Other?
    ensures r.Success? ==> r.value == InstructionKey(KeyOf(s), s.Account?, isWritable)
    ensures r.Failure? ==> r.error == InvalidAuthority
  {
    match s
    case Account(pk) => Success(InstructionKey(pk, true, isWritable))
    case Key(pk) => Success(InstructionKey(pk, false, isWritable))
    case Other => Failure(InvalidAuthority)
  }

  /** The entries one authority contributes: every array element read-only, `{write: x}` writable. */
  function EntriesOf(a: Authority): (es: seq<Entry>)
  {
    match a
    case Single(s) => [Entry(s, false)]
    case Many(ss) => seq(|ss|, j requires 0 <= j < |ss| => Entry(ss[j], false))
    case Write(s) => [Entry(s, true)]
  }

  /** How many keys an authority yields: its length when it is an array, 1 otherwise. */
  function Width(a: Authority): nat
  {
    if a.Many? then |a.signers| else 1
  }

  /** The number of keys a list of authorities yields. */
  function Count(auths: seq<Authority>): nat
  {
    if auths == [] then 0 else Count(auths[..|auths| - 1]) + Width(auths[|auths| - 1])
  }

  /** The flattened entries of a list of authorities, in input order. */
  function Entries(auths: seq<Authority>): seq<Entry>
  {
    if auths == [] then [] else Entries(auths[..|auths| - 1]) + EntriesOf(auths[|auths| - 1])
  }

  /** The key of a valid entry. */
  function EntryKey(e: Entry): InstructionKey
    requires !e.signer.Other?
  {
    InstructionKey(KeyOf(e.signer), e.signer.Account?, e.writable)
  }

  /** The keys of a list of entries; the conversion fails as soon as one entry is invalid. */
  function KeysOfEntries(es: seq<Entry>): (r: Result<seq<InstructionKey>, string>)
    ensures r.Success? <==> forall i :: 0 <= i < |es| ==> !es[i].signer.Other?
    ensures r.Success? ==> |r.value| == |es| && forall i :: 0 <= i < |es| ==> r.value[i] == EntryKey(es[i])
    ensures r.Failure? ==> r.error == InvalidAuthority
  {
    if es == [] then Success([])
    else
      var last := es[|es| - 1];
      match KeysOfEntries(es[..|es| - 1])
      case Failure(e) => Failure(e)
      case Success(ks) =>
        match AuthToKey(last.signer, last.writable)
        case Failure(e) => Failure(e)
        case Success(k) => Success(ks + [k])
  }

  /** What authsToKeys computes for a list of authorities. */
  function KeysOf(auths: seq<Authority>): (r: Result<seq<InstructionKey>, string>)
    ensures r.Success? ==> |r.value| == Count(auths)
    ensures r.Failure? ==> r.error == InvalidAuthority
  {
    EntriesLength(auths);
    KeysOfEntries(Entries(auths))
  }

  /** Flattening distributes over concatenation of authority lists. */
  lemma {:induction false} EntriesAppend(a: seq<Authority>, b: seq<Authority>)
    ensures Entries(a + b) == Entries(a) + Entries(b)
    decreases |b|
  {
    if b != [] {
      var b' := b[..|b| - 1];
      assert (a + b)[..|a + b| - 1] == a + b';
      EntriesAppend(a, b');
    } else {
      assert a + b == a;
    }
  }

  /** The flattened list has one entry per key the authorities yield. */
  lemma {:induction false} EntriesLength(auths: seq<Authority>)
    ensures |Entries(auths)| == Count(auths)
  {
    if auths != [] {
      EntriesLength(auths[..|auths| - 1]);
    }
  }

  /** Once the entries so far contain an invalid one, no continuation converts. */
  lemma KeysOfEntriesAppendFailure(p: seq<Entry>, q: seq<Entry>)
    requires KeysOfEntries(p).Failure?
    ensures KeysOfEntries(p + q).Failure?
  {
    var i :| 0 <= i < |p| && p[i].signer.Other?;
    assert (p + q)[i] == p[i];
  }

  /** Flattening one more authority appends its entries. */
  lemma EntriesSnoc(auths: seq<Authority>, i: nat)
    requires i < |auths|
    ensures Entries(auths[..i + 1]) == Entries(auths[..i]) + EntriesOf(auths[i])
  {
    assert auths[..i + 1][..i] == auths[..i];
  }

  /** Converting one more valid entry appends its key. */
  lemma KeysSnoc(p: seq<Entry>, e: Entry, ks: seq<InstructionKey>, k: InstructionKey)
    requires KeysOfEntries(p) == Success(ks)
    requires AuthToKey(e.signer, e.writable) == Success(k)
    ensures KeysOfEntries(p + [e]) == Success(ks + [k])
  {
    assert (p + [e])[..|p|] == p;
  }

  /** Converting the next element of an array authority appends its key. */
  lemma ArrayStep(done: seq<Entry>, ss: seq<Signer>, j: nat, keys: seq<InstructionKey>, k: InstructionKey)
    requires j < |ss|
    requires KeysOfEntries(done + EntriesOf(Many(ss))[..j]) == Success(keys)
    requires AuthToKey(ss[j], false) == Success(k)
    ensures KeysOfEntries(done + EntriesOf(Many(ss))[..j + 1]) == Success(keys + [k])
  {
    var es := EntriesOf(Many(ss));
    assert done + es[..j + 1] == (done + es[..j]) + [Entry(ss[j], false)];
    KeysSnoc(done + es[..j], Entry(ss[j], false), keys, k);
  }

  /** An invalid array element makes the conversion of the whole array fail. */
  lemma ArrayAbort(done: seq<Entry>, ss: seq<Signer>, j: nat)
    requires j < |ss| && ss[j].Other?
    ensures KeysOfEntries(done + EntriesOf(Many(ss))).Failure?
  {
    assert (done + EntriesOf(Many(ss)))[|done| + j].signer == ss[j];
  }

  /**
   * The body of authsToKeys' loop for one authority: pushes one key per array
   * element (never writable), or one key for a single authority (writable
   * exactly for `{write: x}`); an invalid element throws.
   */
  method PushKeys(keys: seq<InstructionKey>, auth: Authority, ghost done: seq<Entry>)
    returns (r: Result<seq<InstructionKey>, string>)
    requires KeysOfEntries(done) == Success(keys)
    ensures r == KeysOfEntries(done + EntriesOf(auth))
  {
    match auth {
      case Many(ss) =>
        var pushed := keys;
        assert done + EntriesOf(auth)[..0] == done;
        for j := 0 to |ss|
          invariant KeysOfEntries(done + EntriesOf(auth)[..j]) == Success(pushed)
        {
          var k := AuthToKey(ss[j], false);
          if k.Failure? {
            ArrayAbort(done, ss, j);
            return Failure(k.error);
          }
          ArrayStep(done, ss, j, pushed, k.value);
          pushed := pushed + [k.value];
        }
        assert EntriesOf(auth)[..|ss|] == EntriesOf(auth);
        return Success(pushed);
      case Single(s) =>
        var k := AuthToKey(s, false);
        if k.Failure? {
          return Failure(k.error);
        }
        KeysSnoc(done, Entry(s, false), keys, k.value);
        return Success(keys + [k.value]);
      case Write(s) =>
        var k := AuthToKey(s, true);
        if k.Failure? {
          return Failure(k.error);
        }
        KeysSnoc(done, Entry(s, true), keys, k.value);
        return Success(keys + [k.value]);
    }
  }

  /**
   * authsToKeys: walks the authorities in order and pushes their keys;
   * an invalid element throws and aborts the whole call.
   */
  method AuthsToKeys(auths: seq<Authority>) returns (r: Result<seq<InstructionKey>, string>)
    ensures r == KeysOf(auths)
  {
    var keys: seq<InstructionKey> := [];
    for i := 0 to |auths|
      invariant KeysOf(auths[..i]) == Success(keys)
    {
      EntriesSnoc(auths, i);
      var next := PushKeys(keys, auths[i], Entries(auths[..i]));
      if next.Failure? {
        Abort(auths, i);
        return next;
      }
      keys := next.value;
    }
    assert auths[..|auths|] == auths;
    return Success(keys);
  }

  /** The flattened list splits around authority i. */
  lemma SplitAt(auths: seq<Authority>, i: nat)
    requires i < |auths|
    ensures Entries(auths) == Entries(auths[..i]) + EntriesOf(auths[i]) + Entries(auths[i + 1..])
  {
    var x, y := auths[..i + 1], auths[i + 1..];
    assert auths == x + y;
    EntriesAppend(x, y);
    EntriesSnoc(auths, i);
  }

  /** A failure among the first i + 1 authorities makes the conversion of the whole list fail. */
  lemma Abort(auths: seq<Authority>, i: nat)
    requires i < |auths|
    requires KeysOf(auths[..i + 1]).Failure?
    ensures KeysOf(auths).Failure?
  {
    var x, y := auths[..i + 1], auths[i + 1..];
    assert auths == x + y;
    EntriesAppend(x, y);
    KeysOfEntriesAppendFailure(Entries(x), Entries(y));
  }

  /** The conversion succeeds exactly when no element of any authority is invalid. */
  lemma KeysOfSucceeds(auths: seq<Authority>)
    ensures KeysOf(auths).Success? <==>
      forall k, j :: 0 <= k < |auths| && 0 <= j < |EntriesOf(auths[k])| ==> !EntriesOf(auths[k])[j].signer.Other?
  {
    forall k, j | 0 <= k < |auths| && 0 <= j < |EntriesOf(auths[k])|
      ensures Count(auths[..k]) + j < |Entries(auths)|
      ensures Entries(auths)[Count(auths[..k]) + j] == EntriesOf(auths[k])[j]
    {
      EntryPosition(auths, k, j);
    }
    if !KeysOf(auths).Success? {
      var i :| 0 <= i < |Entries(auths)| && Entries(auths)[i].signer.Other?;
      var k, j := Locate(auths, i);
    }
  }

  /** Authority k's entries sit right after the entries of the authorities before it. */
  lemma EntryPosition(auths: seq<Authority>, k: nat, j: nat)
    requires k < |auths| && j < |EntriesOf(auths[k])|
    ensures Count(auths[..k]) + j < |Entries(auths)|
    ensures Entries(auths)[Count(auths[..k]) + j] == EntriesOf(auths[k])[j]
  {
    SplitAt(auths, k);
    EntriesLength(auths[..k]);
    IndexMiddle(Entries(auths[..k]), EntriesOf(auths[k]), Entries(auths[k + 1..]), j);
  }

  /** Position j of the middle part of a three-way concatenation. */
  lemma IndexMiddle<T>(before: seq<T>, here: seq<T>, after: seq<T>, j: nat)
    requires j < |here|
    ensures |before| + j < |before + here + after| && (before + here + after)[|before| + j] == here[j]
  {
  }

  /** Every position of the flattened list belongs to some authority. */
  lemma {:induction false} Locate(auths: seq<Authority>, i: nat) returns (k: nat, j: nat)
    requires i < |Entries(auths)|
    ensures k < |auths| && j < |EntriesOf(auths[k])|
    ensures Entries(auths)[i] == EntriesOf(auths[k])[j]
  {
    var n := |auths| - 1;
    if i < |Entries(auths[..n])| {
      k, j := Locate(auths[..n], i);
      assert auths[..n][k] == auths[k];
    } else {
      k, j := n, i - |Entries(auths[..n])|;
    }
  }

  /**
   * Shape of a successful conversion: as many keys as the authorities yield,
   * authority k's keys at positions Count(auths[..k]) onwards in element order,
   * array elements never writable, `{write: x}` writable, plain authorities
   * read-only, signer exactly for Accounts, and the key being the element's public key.
   */
  lemma KeyAt(auths: seq<Authority>, k: nat, j: nat)
    requires KeysOf(auths).Success?
    requires k < |auths| && j < Width(auths[k])
    ensures |KeysOf(auths).value| == Count(auths)
    ensures Count(auths[..k]) + j < Count(auths)
    ensures var key := KeysOf(auths).value[Count(auths[..k]) + j];
      var s := match auths[k] case Many(ss) => ss[j] case Single(s) => s case Write(s) => s;
      && !s.Other?
      && key.pubkey == KeyOf(s)
      && key.isSigner == s.Account?
      && key.isWritable == auths[k].Write?
  {
    EntriesLength(auths);
    EntryPosition(auths, k, j);
  }

  /** BaseProgram: the program id every instruction it builds is addressed to. */
  datatype Program = Program(programID: PublicKey) {

    /** instruction: wraps data and the converted authorities into an instruction for this program. */
    function Instruction(data: seq<Byte>, auths: seq<Authority>): (r: Result<TransactionInstruction, string>)
      ensures r.Success? <==> KeysOf(auths).Success?
      ensures r.Success? ==> r.value.data == data && r.value.programId == programID && r.value.keys == KeysOf(auths).value
      ensures r.Failure? ==> r.error == InvalidAuthority
    {
      match KeysOf(auths)
      case Failure(e) => Failure(e)
      case Success(keys) => Success(TransactionInstruction(keys, programID, data))
    }

    /**
     * instructionEncode: allocates a zero-filled buffer of exactly the layout's
     * `span`, lets the layout encode into it, and builds the instruction from it.
     * Only the span of the (usually struct) layout is read here; `encode`
     * stands for the layout's in-place encoding of the caller's data.
     */
    function InstructionEncode(span: nat, encode: seq<Byte> -> seq<Byte>, auths: seq<Authority>)
      : (r: Result<TransactionInstruction, string>)
      requires |encode(Zeros(span))| == span
      ensures r.Success? ==> |r.value.data| == span && r.value.data == encode(Zeros(span))
      ensures r.Success? <==> KeysOf(auths).Success?
      ensures r == Instruction(encode(Zeros(span)), auths)
    {
      Instruction(encode(Zeros(span)), auths)
    }
  }

  /** Buffer.alloc(n): n zero bytes. */
  function Zeros(n: nat): (z: seq<Byte>)
    ensures |z| == n && forall i :: 0 <= i < n ==> z[i] == 0
  {
    seq(n, _ => 0)
  }
}
