/** A file split over a key-value store: what persisting, restoring and crashing in between give. */
module DbPersist {

  import opened Text

  newtype byte = x: int | 0 <= x < 256

  /** The two kinds of value written: a chunk of the file, and the meta record. */
  datatype Value = Chunk(data: seq<byte>) | Meta(count: nat, size: nat)

  type Entries = map<string, Value>

  const CHUNK: nat := 122880
  const META_KEY := "db:meta"
  const CHUNK_PREFIX := "db:chunk:"
  const CHUNK_END := "db:chunk;"

  // ---- keys --------------------------------------------------------------------------------

  function Digits(n: nat): (s: string)
    ensures s != [] && forall i :: 0 <= i < |s| ==> '0' <= s[i] <= '9'
  {
    var d := ['0' + (n % 10) as char];
    if n < 10 then d else Digits(n / 10) + d
  }

  function Zeros(n: nat): string {
    if n == 0 then "" else "0" + Zeros(n - 1)
  }

  /** padStart(6, "0"). */
  function Pad(s: string): string {
    if |s| >= 6 then s else Zeros(6 - |s|) + s
  }

  function ChunkKey(i: nat): string { CHUNK_PREFIX + Pad(Digits(i)) }

  /** The number a digit string stands for. */
  function Number(s: string): int {
    if s == [] then 0 else 10 * Number(s[..|s| - 1]) + (s[|s| - 1] as int - '0' as int)
  }

  lemma {:induction false} NumberOfDigits(n: nat)
    ensures Number(Digits(n)) == n
  {
    if n >= 10 {
      NumberOfDigits(n / 10);
      assert Digits(n)[..|Digits(n)| - 1] == Digits(n / 10);
    }
  }

  lemma {:induction false} LeadingZeros(k: nat, s: string)
    ensures Number(Zeros(k) + s) == Number(s)
    decreases |s|, k
  {
    if s == [] {
      assert Zeros(k) + s == Zeros(k);
      ZerosAreZero(k);
    } else {
      assert (Zeros(k) + s)[..|Zeros(k) + s| - 1] == Zeros(k) + s[..|s| - 1];
      LeadingZeros(k, s[..|s| - 1]);
    }
  }

  lemma {:induction false} ZerosAreZero(k: nat)
    ensures Number(Zeros(k)) == 0
    ensures forall i :: 0 <= i < |Zeros(k)| ==> Zeros(k)[i] == '0'
  {
    if k > 0 {
      ZerosAreZero(k - 1);
      var z := Zeros(k);
      forall i | 0 <= i < |z| ensures z[i] == '0' {
        assert i > 0 ==> z[i] == Zeros(k - 1)[i - 1];
      }
      AllZero(z);
    }
  }

  lemma {:induction false} AllZero(z: string)
    requires forall i :: 0 <= i < |z| ==> z[i] == '0'
    ensures Number(z) == 0
  {
    if z != [] {
      AllZero(z[..|z| - 1]);
    }
  }

  /** No two chunks share a key, at any index: past six digits the padding just stops. */
  lemma ChunkKeysInjective(i: nat, j: nat)
    ensures ChunkKey(i) == ChunkKey(j) ==> i == j
  {
    ChunkKeyNumber(i);
    ChunkKeyNumber(j);
  }

  lemma ChunkKeyNumber(i: nat)
    ensures CHUNK_PREFIX <= ChunkKey(i) && Number(ChunkKey(i)[|CHUNK_PREFIX|..]) == i
  {
    NumberOfDigits(i);
    assert ChunkKey(i)[|CHUNK_PREFIX|..] == Pad(Digits(i));
    if |Digits(i)| < 6 {
      LeadingZeros(6 - |Digits(i)|, Digits(i));
    }
  }

  /** A chunk's key: the prefix and its index in decimal, six digits wide, wider past a million. */
  lemma ChunkKeyShape(i: nat)
    ensures "db:chunk:" <= ChunkKey(i) && Number(ChunkKey(i)[9..]) == i
    ensures i < 1_000_000 ==> |ChunkKey(i)| == 15
    ensures forall k :: 9 <= k < |ChunkKey(i)| ==> '0' <= ChunkKey(i)[k] <= '9'
  {
    ChunkKeyNumber(i);
    DigitsFit(i, 6);
    ZerosAreZero(if |Digits(i)| < 6 then 6 - |Digits(i)| else 0);
    ZerosLong(if |Digits(i)| < 6 then 6 - |Digits(i)| else 0);
  }

  lemma {:induction false} ZerosLong(n: nat)
    ensures |Zeros(n)| == n
  {
    if n > 0 { ZerosLong(n - 1); }
  }

  function Pow10(n: nat): nat { if n == 0 then 1 else 10 * Pow10(n - 1) }

  lemma {:induction false} DigitsFit(i: nat, n: nat)
    requires n > 0
    ensures i < Pow10(n) ==> |Digits(i)| <= n
  {
    assert Pow10(0) == 1;
    if i >= 10 && n > 1 {
      DigitsFit(i / 10, n - 1);
    }
  }

  /** Byte order of keys. */
  predicate Below(a: string, b: string) {
    b != [] && (a == [] || a[0] < b[0] || (a[0] == b[0] && Below(a[1..], b[1..])))
  }

  predicate InRange(k: string, start: string, end: string) {
    !Below(k, start) && Below(k, end)
  }

  /** The range [p + c .. p + (c+1)) holds exactly the keys that start with p + c. */
  lemma {:induction false} RangeIsPrefix(p: string, lo: char, hi: char, k: string)
    requires lo as int + 1 == hi as int
    ensures InRange(k, p + [lo], p + [hi]) <==> p + [lo] <= k
    decreases |p|
  {
    if p == [] {
      assert p + [lo] == [lo] && p + [hi] == [hi];
      assert [lo][1..] == [] && [hi][1..] == [];
      if k != [] {
        assert !Below(k[1..], []);
        assert [lo] <= k <==> k[0] == lo;
        assert Below(k, [lo]) <==> k[0] < lo;
        assert Below(k, [hi]) <==> k[0] < hi;
      }
    } else if k != [] {
      assert (p + [lo])[1..] == p[1..] + [lo] && (p + [hi])[1..] == p[1..] + [hi];
      RangeIsPrefix(p[1..], lo, hi, k[1..]);
      assert k[0] == p[0] && p[1..] + [lo] <= k[1..] ==> p + [lo] <= k by {
        assert k == [k[0]] + k[1..] && p + [lo] == [p[0]] + (p[1..] + [lo]);
      }
    }
  }

  /** The range that persisting deletes is exactly the keys with the chunk prefix. */
  lemma DeletedRange(k: string)
    ensures InRange(k, CHUNK_PREFIX, CHUNK_END) <==> CHUNK_PREFIX <= k
  {
    RangeIsPrefix("db:chunk", ':', ';', k);
    assert "db:chunk" + [':'] == CHUNK_PREFIX && "db:chunk" + [';'] == CHUNK_END;
  }

  // ---- writes ------------------------------------------------------------------------------

  datatype Write = DeleteRange(start: string, end: string) | Put(key: string, value: Value)

  function Written(m: Entries, w: Write): Entries {
    match w
    case DeleteRange(start, end) => map k | k in m && !InRange(k, start, end) :: m[k]
    case Put(key, value) => m[key := value]
  }

  function AllWritten(m: Entries, ws: seq<Write>): Entries {
    if ws == [] then m else Written(AllWritten(m, ws[..|ws| - 1]), ws[|ws| - 1])
  }

  /** Math.ceil(length / CHUNK). */
  function ChunkCount(size: nat): nat { (size + CHUNK - 1) / CHUNK }

  function Piece(bytes: seq<byte>, i: nat): seq<byte>
    requires i < ChunkCount(|bytes|)
  {
    bytes[i * CHUNK..if (i + 1) * CHUNK < |bytes| then (i + 1) * CHUNK else |bytes|]
  }

  /** The first n chunk puts. */
  function ChunkPuts(bytes: seq<byte>, n: nat): seq<Write>
    requires n <= ChunkCount(|bytes|)
  {
    if n == 0 then [] else ChunkPuts(bytes, n - 1) + [Put(ChunkKey(n - 1), Chunk(Piece(bytes, n - 1)))]
  }

  /** Every write of one persist, in order: the range delete, the chunks, the meta record. */
  function PersistWrites(bytes: seq<byte>): seq<Write> {
    var count := ChunkCount(|bytes|);
    [DeleteRange(CHUNK_PREFIX, CHUNK_END)] + ChunkPuts(bytes, count) + [Put(META_KEY, Meta(count, |bytes|))]
  }

  // ---- restoring ---------------------------------------------------------------------------

  datatype Restored = NoFile | Failed | File(bytes: seq<byte>)

  /** The first n chunks joined, if none is missing. */
  function Gather(m: Entries, n: nat): Option<seq<byte>> {
    if n == 0 then Some([])
    else
      match Gather(m, n - 1)
      case None => None
      case Some(front) =>
        if ChunkKey(n - 1) in m && m[ChunkKey(n - 1)].Chunk? then Some(front + m[ChunkKey(n - 1)].data) else None
  }

  function Restore(m: Entries): Restored {
    if META_KEY !in m then NoFile
    else if m[META_KEY].Chunk? then Failed
    else
      match Gather(m, m[META_KEY].count)
      case None => Failed
      case Some(all) => if |all| == m[META_KEY].size then File(all) else Failed
  }

  // ---- what the store holds between writes -------------------------------------------------

  /** The store of a persist of `kept` over which a persist of `latest` got as far as c chunks. */
  ghost predicate Holds(m: Entries, kept: seq<byte>, latest: seq<byte>, c: nat) {
    && c <= ChunkCount(|latest|)
    && META_KEY in m && m[META_KEY] == Meta(ChunkCount(|kept|), |kept|)
    && Chunked(m, latest, c)
  }

  /** Exactly the first c chunks of `bytes` are there. */
  ghost predicate Chunked(m: Entries, bytes: seq<byte>, c: nat)
    requires c <= ChunkCount(|bytes|)
  {
    && (forall i: nat :: i < c ==> ChunkKey(i) in m && m[ChunkKey(i)] == Chunk(Piece(bytes, i)))
    && (forall i: nat :: c <= i ==> ChunkKey(i) !in m)
  }

  lemma MetaIsNoChunk()
    ensures !(CHUNK_PREFIX <= META_KEY)
    ensures forall i: nat :: ChunkKey(i) != META_KEY
  {
    forall i: nat ensures ChunkKey(i) != META_KEY {
      assert ChunkKey(i)[3] == 'c' && META_KEY[3] == 'm';
    }
  }

  /** The delete leaves no chunk at all, and nothing else is lost. */
  lemma AfterDelete(m: Entries, bytes: seq<byte>)
    ensures var v := Written(m, DeleteRange(CHUNK_PREFIX, CHUNK_END));
            && Chunked(v, bytes, 0)
            && (forall k :: k in v <==> k in m && !(CHUNK_PREFIX <= k))
            && (forall k :: k in v ==> v[k] == m[k])
  {
    var v := Written(m, DeleteRange(CHUNK_PREFIX, CHUNK_END));
    forall k ensures k in v <==> k in m && !(CHUNK_PREFIX <= k) {
      DeletedRange(k);
    }
    forall i: nat ensures ChunkKey(i) !in v {
      ChunkKeyNumber(i);
    }
  }

  lemma AfterPut(m: Entries, bytes: seq<byte>, n: nat)
    requires 0 < n <= ChunkCount(|bytes|) && Chunked(m, bytes, n - 1)
    ensures Chunked(m[ChunkKey(n - 1) := Chunk(Piece(bytes, n - 1))], bytes, n)
  {
    hide Piece, ChunkKey, ChunkCount;
    var v := m[ChunkKey(n - 1) := Chunk(Piece(bytes, n - 1))];
    forall i: nat | i != n - 1 ensures ChunkKey(i) != ChunkKey(n - 1) {
      ChunkKeysInjective(i, n - 1);
    }
  }

  lemma {:induction false} AfterPuts(m: Entries, bytes: seq<byte>, n: nat)
    requires n <= ChunkCount(|bytes|)
    ensures var v := AllWritten(m, [DeleteRange(CHUNK_PREFIX, CHUNK_END)] + ChunkPuts(bytes, n));
            && Chunked(v, bytes, n)
            && (forall k :: !(CHUNK_PREFIX <= k) ==> (k in v <==> k in m) && (k in m ==> v[k] == m[k]))
  {
    hide Piece, ChunkCount, Written, Chunked, ChunkKey;
    var ws := [DeleteRange(CHUNK_PREFIX, CHUNK_END)] + ChunkPuts(bytes, n);
    if n == 0 {
      assert ws == [DeleteRange(CHUNK_PREFIX, CHUNK_END)] && ws[..0] == [];
      AfterDelete(m, bytes);
    } else {
      AfterPuts(m, bytes, n - 1);
      assert ws[..|ws| - 1] == [DeleteRange(CHUNK_PREFIX, CHUNK_END)] + ChunkPuts(bytes, n - 1);
      PutIsUpdate(AllWritten(m, ws[..|ws| - 1]), ChunkKey(n - 1), Chunk(Piece(bytes, n - 1)));
      AfterPut(AllWritten(m, ws[..|ws| - 1]), bytes, n);
      ChunkKeyNumber(n - 1);
    }
  }

  lemma PutIsUpdate(m: Entries, key: string, value: Value)
    ensures Written(m, Put(key, value)) == m[key := value]
  {
  }

  lemma PieceShape(bytes: seq<byte>, n: nat)
    requires n < ChunkCount(|bytes|)
    ensures n * CHUNK < |bytes|
    ensures n + 1 == ChunkCount(|bytes|) ==> Piece(bytes, n) == bytes[n * CHUNK..]
    ensures n + 1 < ChunkCount(|bytes|) ==> (n + 1) * CHUNK < |bytes| && Piece(bytes, n) == bytes[n * CHUNK..(n + 1) * CHUNK]
  {
  }

  /** The first n chunks are the first n * CHUNK bytes, or all of them. */
  function Upto(bytes: seq<byte>, n: nat): seq<byte> {
    if n * CHUNK < |bytes| then bytes[..n * CHUNK] else bytes
  }

  lemma {:induction false} GatherChunks(m: Entries, bytes: seq<byte>, c: nat, n: nat)
    requires c <= ChunkCount(|bytes|) && Chunked(m, bytes, c)
    ensures Gather(m, n) == if n <= c then Some(Upto(bytes, n)) else None
  {
    hide Upto, Piece, ChunkCount, ChunkKey;
    if n > 0 {
      GatherChunks(m, bytes, c, n - 1);
      if n <= c {
        UptoNext(bytes, n);
      }
    } else {
      UptoNone(bytes);
    }
  }

  lemma UptoNone(bytes: seq<byte>)
    ensures Upto(bytes, 0) == []
  {
  }

  lemma UptoNext(bytes: seq<byte>, n: nat)
    requires 0 < n <= ChunkCount(|bytes|)
    ensures Upto(bytes, n - 1) + Piece(bytes, n - 1) == Upto(bytes, n)
  {
    PieceShape(bytes, n - 1);
    hide Piece, ChunkCount;
  }

  lemma CountCovers(size: nat)
    ensures size <= ChunkCount(size) * CHUNK < size + CHUNK
  {
  }

  // ---- completed and crashed persists ------------------------------------------------------

  lemma CompletedHolds(m: Entries, bytes: seq<byte>)
    ensures Holds(AllWritten(m, PersistWrites(bytes)), bytes, bytes, ChunkCount(|bytes|))
    ensures var v := AllWritten(m, PersistWrites(bytes));
            forall k :: k != META_KEY && !(CHUNK_PREFIX <= k) ==> (k in v <==> k in m) && (k in m ==> v[k] == m[k])
  {
    var ws, count := PersistWrites(bytes), ChunkCount(|bytes|);
    assert ws[..|ws| - 1] == [DeleteRange(CHUNK_PREFIX, CHUNK_END)] + ChunkPuts(bytes, count);
    AfterPuts(m, bytes, count);
    MetaIsNoChunk();
    PutIsUpdate(AllWritten(m, ws[..|ws| - 1]), META_KEY, Meta(count, |bytes|));
    hide ChunkCount, ChunkKey, Piece, Written, ChunkPuts;
  }

  /** What restoring makes of a store a persist was crashed over. */
  function Outcome(kept: seq<byte>, latest: seq<byte>, c: nat): Restored {
    if kept == [] then File([])
    else if c < ChunkCount(|kept|) then Failed
    else if |latest| == |kept| then File(latest)
    else if |kept| % CHUNK == 0 && |kept| < |latest| then File(latest[..|kept|])
    else Failed
  }

  lemma RestoreHolds(m: Entries, kept: seq<byte>, latest: seq<byte>, c: nat)
    requires Holds(m, kept, latest, c)
    ensures Restore(m) == Outcome(kept, latest, c)
  {
    var n := ChunkCount(|kept|);
    GatherChunks(m, latest, c, n);
    CountCovers(|kept|);
    CountCovers(|latest|);
    hide Chunked, Gather, ChunkCount;
    if kept != [] && n <= c {
      CountsCompare(|kept|, |latest|, n, ChunkCount(|latest|));
      assert |Upto(latest, n)| == |kept| && |latest| != |kept| ==> Upto(latest, n) == latest[..|kept|];
    }
  }

  /** Fewer chunks than the new file has: the sizes agree only on a whole number of chunks. */
  lemma CountsCompare(kept: nat, latest: nat, n: nat, total: nat)
    requires kept <= n * CHUNK < kept + CHUNK && latest <= total * CHUNK < latest + CHUNK && n <= total && kept > 0
    ensures n * CHUNK < latest ==> (n * CHUNK == kept <==> kept % CHUNK == 0 && kept < latest)
    ensures latest <= n * CHUNK ==> !(kept % CHUNK == 0 && kept < latest)
  {
  }

  /** Main result: whatever the store held before, a completed persist is restored byte for byte,
      at every length, and touches no key but the meta record and the chunks. */
  lemma PersistThenRestore(m: Entries, bytes: seq<byte>)
    ensures Restore(AllWritten(m, PersistWrites(bytes))) == File(bytes)
    ensures var v := AllWritten(m, PersistWrites(bytes));
            forall k :: k != META_KEY && !(CHUNK_PREFIX <= k) ==> (k in v <==> k in m) && (k in m ==> v[k] == m[k])
  {
    hide Restore, AllWritten, PersistWrites, Holds, ChunkCount;
    CompletedHolds(m, bytes);
    RestoreHolds(AllWritten(m, PersistWrites(bytes)), bytes, bytes, ChunkCount(|bytes|));
  }

  /** One persist that dies after `writes` of its writes, before the meta record. */
  datatype Attempt = Attempt(bytes: seq<byte>, writes: nat)

  predicate Dies(a: Attempt) { a.writes < |PersistWrites(a.bytes)| }

  function AfterAttempts(m: Entries, attempts: seq<Attempt>): Entries
    requires forall i :: 0 <= i < |attempts| ==> Dies(attempts[i])
  {
    if attempts == [] then m
    else
      var last := attempts[|attempts| - 1];
      assert Dies(attempts[|attempts| - 1]);
      AllWritten(AfterAttempts(m, attempts[..|attempts| - 1]), PersistWrites(last.bytes)[..last.writes])
  }

  /** The last attempt that wrote anything, as the file it was writing and the chunks it wrote. */
  function Latest(kept: seq<byte>, attempts: seq<Attempt>): (seq<byte>, nat) {
    if attempts == [] then (kept, ChunkCount(|kept|))
    else
      var last := attempts[|attempts| - 1];
      if last.writes > 0 then (last.bytes, last.writes - 1) else Latest(kept, attempts[..|attempts| - 1])
  }

  lemma {:induction false} PutsLength(bytes: seq<byte>, n: nat, c: nat)
    requires c <= n <= ChunkCount(|bytes|)
    ensures |ChunkPuts(bytes, n)| == n && ChunkPuts(bytes, n)[..c] == ChunkPuts(bytes, c)
  {
    hide Piece, ChunkKey, ChunkCount;
    if n > 0 {
      PutsLength(bytes, n - 1, if c < n then c else n - 1);
      if c < n {
        assert ChunkPuts(bytes, n)[..c] == ChunkPuts(bytes, n - 1)[..c];
      }
    }
  }

  /** A crash leaves the meta record of the file before and a prefix of the chunks of the new one. */
  lemma CrashHolds(m: Entries, kept: seq<byte>, latest: seq<byte>, c: nat, a: Attempt)
    requires Holds(m, kept, latest, c) && Dies(a) && a.writes > 0
    ensures Holds(AllWritten(m, PersistWrites(a.bytes)[..a.writes]), kept, a.bytes, a.writes - 1)
  {
    hide ChunkCount, Chunked, AllWritten, ChunkKey;
    CrashWrites(a);
    AfterPuts(m, a.bytes, a.writes - 1);
    MetaIsNoChunk();
  }

  /** The writes of a died attempt: the delete and a prefix of the chunks. */
  lemma CrashWrites(a: Attempt)
    requires Dies(a) && a.writes > 0
    ensures a.writes - 1 <= ChunkCount(|a.bytes|)
    ensures PersistWrites(a.bytes)[..a.writes] == [DeleteRange(CHUNK_PREFIX, CHUNK_END)] + ChunkPuts(a.bytes, a.writes - 1)
  {
    hide ChunkCount, ChunkPuts;
    var count := ChunkCount(|a.bytes|);
    PutsLength(a.bytes, count, count);
    PutsLength(a.bytes, count, a.writes - 1);
  }

  lemma {:induction false} CrashesHold(m: Entries, kept: seq<byte>, attempts: seq<Attempt>)
    requires Holds(m, kept, kept, ChunkCount(|kept|))
    requires forall i :: 0 <= i < |attempts| ==> Dies(attempts[i])
    ensures var (latest, c) := Latest(kept, attempts); Holds(AfterAttempts(m, attempts), kept, latest, c)
  {
    hide Holds, Dies, ChunkCount, PersistWrites;
    if attempts != [] {
      var earlier, last := attempts[..|attempts| - 1], attempts[|attempts| - 1];
      CrashesHold(m, kept, earlier);
      if last.writes > 0 {
        CrashHolds(AfterAttempts(m, earlier), kept, Latest(kept, earlier).0, Latest(kept, earlier).1, last);
      }
    }
  }

  /** When a restore would mix two files: whole chunks of a longer new file under the old size. */
  predicate Torn(kept: seq<byte>, latest: seq<byte>, c: nat) {
    && 0 < |kept| < |latest| && |kept| % CHUNK == 0 && ChunkCount(|kept|) <= c
    && latest[..|kept|] != kept
  }

  /** Main result: after a completed persist and any number of persists that died at any write, a
      restore fails or gives the complete old file or the complete new one; it gives anything else
      exactly when the old size is a positive whole number of chunks, the new file is longer and
      differs within it, and at least that many of its chunks were written. */
  lemma CrashSafety(before: Entries, kept: seq<byte>, attempts: seq<Attempt>)
    requires forall i :: 0 <= i < |attempts| ==> Dies(attempts[i])
    ensures var r := Restore(AfterAttempts(AllWritten(before, PersistWrites(kept)), attempts));
            var (latest, c) := Latest(kept, attempts);
            (r == Failed || r == File(kept) || r == File(latest)) <==> !Torn(kept, latest, c)
  {
    hide Holds, Dies, PersistWrites, AllWritten, Restore, AfterAttempts;
    CompletedHolds(before, kept);
    var m := AllWritten(before, PersistWrites(kept));
    CrashesHold(m, kept, attempts);
    var (latest, c) := Latest(kept, attempts);
    RestoreHolds(AfterAttempts(m, attempts), kept, latest, c);
  }

  function Filled(n: nat, b: byte): (s: seq<byte>)
    ensures |s| == n && forall i :: 0 <= i < n ==> s[i] == b
  {
    seq(n, _ => b)
  }

  /** It does happen: a one-chunk file, and a two-chunk persist over it that dies before its meta. */
  lemma TornSnapshot(before: Entries)
    ensures var zeros, ones := Filled(CHUNK, 0), Filled(2 * CHUNK, 1);
            var attempts := [Attempt(ones, 3)];
            && Dies(attempts[0])
            && var r := Restore(AfterAttempts(AllWritten(before, PersistWrites(zeros)), attempts));
               r != Failed && r != File(zeros) && r != File(ones)
  {
    hide AllWritten, Restore, AfterAttempts;
    var zeros, ones := Filled(CHUNK, 0), Filled(2 * CHUNK, 1);
    var attempts := [Attempt(ones, 3)];
    WritesShape(ones);
    assert Latest(zeros, attempts) == (ones, 2);
    assert zeros[0] != ones[..|zeros|][0];
    assert Torn(zeros, ones, 2);
    CrashSafety(before, zeros, attempts);
  }

  /** Before the first completed persist there is no file, whatever attempts died. */
  lemma {:induction false} NoFileBeforeFirst(m: Entries, attempts: seq<Attempt>)
    requires META_KEY !in m
    requires forall i :: 0 <= i < |attempts| ==> Dies(attempts[i])
    ensures Restore(AfterAttempts(m, attempts)) == NoFile
  {
    hide Dies, PersistWrites, AllWritten;
    if attempts != [] {
      var earlier, last := attempts[..|attempts| - 1], attempts[|attempts| - 1];
      NoFileBeforeFirst(m, earlier);
      if last.writes > 0 {
        NoMetaAfterCrash(AfterAttempts(m, earlier), last);
      } else {
        NothingWritten(AfterAttempts(m, earlier), PersistWrites(last.bytes));
      }
    }
  }

  lemma NothingWritten(m: Entries, ws: seq<Write>)
    ensures AllWritten(m, ws[..0]) == m
  {
  }

  lemma NoMetaAfterCrash(m: Entries, a: Attempt)
    requires META_KEY !in m && Dies(a) && a.writes > 0
    ensures META_KEY !in AllWritten(m, PersistWrites(a.bytes)[..a.writes])
  {
    hide ChunkCount, Chunked, AllWritten, ChunkKey;
    CrashWrites(a);
    AfterPuts(m, a.bytes, a.writes - 1);
    MetaIsNoChunk();
  }

  // ---- the store and the two loops ---------------------------------------------------------

  /** A key-value store whose connection dies after `budget` more writes. */
  class Kv {
    var entries: Entries
    var budget: nat

    method Apply(w: Write) returns (ok: bool)
      modifies this
      ensures ok == (old(budget) > 0)
      ensures entries == (if ok then Written(old(entries), w) else old(entries))
      ensures budget == if ok then old(budget) - 1 else 0
    {
      ok := budget > 0;
      if ok {
        entries := Written(entries, w);
        budget := budget - 1;
      }
    }
  }

  function Limit(n: nat, budget: nat): nat { if n < budget then n else budget }

  /** Writes the file; None when a write failed. */
  method PersistFile(kv: Kv, bytes: array<byte>) returns (count: Option<nat>)
    modifies kv
    ensures var ws := PersistWrites(bytes[..]);
            && kv.entries == AllWritten(old(kv.entries), ws[..Limit(|ws|, old(kv.budget))])
            && count == if |ws| <= old(kv.budget) then Some(ChunkCount(bytes.Length)) else None
  {
    hide Written, AllWritten, PersistWrites, ChunkKey, Piece, ChunkCount;
    ghost var ws, m, data := PersistWrites(bytes[..]), kv.entries, bytes[..];
    var n := ChunkCount(bytes.Length);
    WritesShape(data);
    var ok := kv.Apply(DeleteRange(CHUNK_PREFIX, CHUNK_END));
    WriteOne(m, ws, 0);
    if !ok { return None; }
    for i := 0 to n
      invariant kv.entries == AllWritten(m, ws[..i + 1])
      invariant kv.budget == old(kv.budget) - (i + 1) >= 0
    {
      PieceSlice(data, i);
      var hi := if (i + 1) * CHUNK < bytes.Length then (i + 1) * CHUNK else bytes.Length;
      PutAt(data, i);
      WriteOne(m, ws, i + 1);
      ok := kv.Apply(Put(ChunkKey(i), Chunk(bytes[i * CHUNK..hi])));
      if !ok { return None; }
    }
    WriteOne(m, ws, n + 1);
    ok := kv.Apply(Put(META_KEY, Meta(n, bytes.Length)));
    if !ok { return None; }
    assert ws[..|ws|] == ws;
    count := Some(n);
  }

  lemma WritesShape(bytes: seq<byte>)
    ensures var ws := PersistWrites(bytes);
            && |ws| == ChunkCount(|bytes|) + 2
            && ws[0] == DeleteRange(CHUNK_PREFIX, CHUNK_END)
            && ws[|ws| - 1] == Put(META_KEY, Meta(ChunkCount(|bytes|), |bytes|))
  {
    PutsLength(bytes, ChunkCount(|bytes|), ChunkCount(|bytes|));
  }

  lemma PieceSlice(bytes: seq<byte>, i: nat)
    requires i < ChunkCount(|bytes|)
    ensures var hi := if (i + 1) * CHUNK < |bytes| then (i + 1) * CHUNK else |bytes|;
            i * CHUNK <= hi && Piece(bytes, i) == bytes[i * CHUNK..hi]
  {
  }

  lemma WriteOne(m: Entries, ws: seq<Write>, i: nat)
    requires i < |ws|
    ensures AllWritten(m, ws[..i + 1]) == Written(AllWritten(m, ws[..i]), ws[i])
    ensures AllWritten(m, ws[..0]) == m
  {
    assert ws[..i + 1][..i] == ws[..i];
  }

  /** Where each put stands among the writes. */
  lemma PutAt(bytes: seq<byte>, i: nat)
    requires i < ChunkCount(|bytes|)
    ensures |PersistWrites(bytes)| == ChunkCount(|bytes|) + 2
    ensures PersistWrites(bytes)[i + 1] == Put(ChunkKey(i), Chunk(Piece(bytes, i)))
  {
    hide Piece, ChunkKey;
    var n := ChunkCount(|bytes|);
    PutsLength(bytes, n, n);
    PutsLength(bytes, n, i + 1);
    PutsLength(bytes, i, i);
    assert PersistWrites(bytes)[i + 1] == ChunkPuts(bytes, n)[i] == ChunkPuts(bytes, n)[..i + 1][i];
  }

  /** Reads the file back: None when there is none, `failed` when the parts do not fit together. */
  method RestoreFile(kv: Kv) returns (failed: bool, file: Option<array<byte>>)
    ensures failed <==> Restore(kv.entries) == Failed
    ensures file.None? <==> Restore(kv.entries) == Failed || Restore(kv.entries) == NoFile
    ensures file.Some? ==> Restore(kv.entries) == File(file.value[..])
  {
    hide Gather, Restore, ChunkKey;
    RestoreCases(kv.entries);
    failed, file := false, None;
    if META_KEY !in kv.entries { return; }
    var meta := kv.entries[META_KEY];
    if meta.Chunk? { return true, None; }
    var out := new byte[meta.size];
    var off: nat := 0;
    GatherNone(kv.entries);
    for i := 0 to meta.count
      invariant off <= out.Length
      invariant Gather(kv.entries, i) == Some(out[..off])
    {
      GatherNext(kv.entries, i);
      GatherFails(kv.entries, i + 1);
      if ChunkKey(i) !in kv.entries || kv.entries[ChunkKey(i)].Meta? { return true, None; }
      var chunk := kv.entries[ChunkKey(i)].data;
      if off + |chunk| > out.Length { return true, None; }
      Fill(out, off, chunk);
      off := off + |chunk|;
    }
    if off != meta.size { return true, None; }
    assert out[..off] == out[..];
    file := Some(out);
  }

  /** TypedArray.set. */
  method Fill(out: array<byte>, off: nat, chunk: seq<byte>)
    requires off + |chunk| <= out.Length
    modifies out
    ensures out[..off + |chunk|] == old(out[..off]) + chunk
    ensures out[off + |chunk|..] == old(out[off + |chunk|..])
  {
    for i := 0 to |chunk|
      invariant out[..off] == old(out[..off])
      invariant forall j :: 0 <= j < i ==> out[off + j] == chunk[j]
      invariant out[off + |chunk|..] == old(out[off + |chunk|..])
    {
      out[off + i] := chunk[i];
    }
  }

  lemma RestoreCases(m: Entries)
    ensures META_KEY !in m ==> Restore(m) == NoFile
    ensures META_KEY in m && m[META_KEY].Chunk? ==> Restore(m) == Failed
    ensures META_KEY in m && m[META_KEY].Meta? ==>
              var all := Gather(m, m[META_KEY].count);
              Restore(m) == if all.Some? && |all.value| == m[META_KEY].size then File(all.value) else Failed
  {
    hide Gather;
  }

  lemma GatherNone(m: Entries)
    ensures Gather(m, 0) == Some([])
  {
  }

  lemma GatherNext(m: Entries, i: nat)
    requires Gather(m, i).Some?
    ensures Gather(m, i + 1) == if ChunkKey(i) in m && m[ChunkKey(i)].Chunk? then Some(Gather(m, i).value + m[ChunkKey(i)].data) else None
  {
    hide ChunkKey;
  }

  lemma GatherFails(m: Entries, i: nat)
    requires META_KEY in m && m[META_KEY].Meta? && i <= m[META_KEY].count
    ensures Gather(m, i).None? || |Gather(m, i).value| > m[META_KEY].size ==> Restore(m) == Failed
  {
    GatherStops(m, i, m[META_KEY].count);
    hide Gather;
  }

  /** A missing chunk, or too many bytes, decides the outcome at once. */
  lemma {:induction false} GatherStops(m: Entries, i: nat, n: nat)
    requires i <= n
    ensures Gather(m, i).None? ==> Gather(m, n).None?
    ensures Gather(m, i).Some? && Gather(m, n).Some? ==> |Gather(m, i).value| <= |Gather(m, n).value|
  {
    if i < n {
      GatherStops(m, i, n - 1);
    }
  }
}
