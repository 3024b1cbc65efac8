/**
The SQL tables of server/store.py, one function per transaction, and the storage layout
rules that decide which names may enter them.
*/
module Store {
  import opened Wrappers
  import opened Crypto
  import opened Replay

  type User = string
  type FileId = string

  datatype Status = Pending | Downloaded | Expired | Revoked

  datatype Row = Row(sender: User, recipient: User, uploadTime: int, expiration: int, status: Status,
                     ciphertextSha: Bytes, wrappedKey: Bytes, aesNonce: Bytes, aad: string,
                     signature: Bytes, senderCert: Cert)

  datatype AckRow = AckRow(ackSignature: Bytes, ackTime: int)

  type Files = map<FileId, Row>
  type Acks = map<FileId, AckRow>

  /** SQLite stores 64-bit integers; binding a larger one raises OverflowError. */
  predicate FitsSqlite(n: int) {
    -0x8000_0000_0000_0000 <= n < 0x8000_0000_0000_0000
  }

  /** INSERT INTO files: the primary key and the integer columns must be acceptable. */
  predicate CanInsertFile(files: Files, f: FileId, row: Row) {
    f !in files && FitsSqlite(row.uploadTime) && FitsSqlite(row.expiration)
  }

  function ListPendingFor(files: Files, recipient: User, now: int): set<FileId> {
    set f | f in files && files[f].recipient == recipient && files[f].status == Pending && files[f].expiration > now
  }

  function MarkStatus(files: Files, f: FileId, status: Status): Files {
    if f in files then files[f := files[f].(status := status)] else files
  }

  function MarkExpired(files: Files, now: int): Files {
    map f | f in files ::
      if files[f].status == Pending && files[f].expiration < now then files[f].(status := Expired) else files[f]
  }

  /** The first acknowledgement wins; a later INSERT fails on the key and is ignored. */
  function InsertAck(acks: Acks, f: FileId, ack: AckRow): Acks {
    if f in acks then acks else acks[f := ack]
  }

  // ---------- Names ----------

  predicate IsLowerHex(c: char) {
    '0' <= c <= '9' || 'a' <= c <= 'f'
  }

  /** The canonical text of a UUID: str(uuid.UUID(s)) == s. */
  predicate IsUuid(s: string) {
    |s| == 36 && forall i | 0 <= i < 36 ::
      if i == 8 || i == 13 || i == 18 || i == 23 then s[i] == '-' else IsLowerHex(s[i])
  }

  predicate IsUsernameChar(c: char) {
    'a' <= c <= 'z' || 'A' <= c <= 'Z' || '0' <= c <= '9' || c == '_' || c == '-'
  }

  predicate ValidUsername(s: string) {
    1 <= |s| <= 32 && forall i | 0 <= i < |s| :: IsUsernameChar(s[i])
  }

  // ---------- The connection ----------

  /** A database connection: the three tables and the transactions that change them. */
  class Database {
    var files: Files
    var acks: Acks
    var seen: Table

    constructor ()
      ensures files == map[] && acks == map[] && seen == map[]
    {
      files, acks, seen := map[], map[], map[];
    }

    /** server/replay.py: the INSERT fails on a nonce that is already there. */
    method CheckAndRecord(nonce: Nonce, timestamp: int, now: int) returns (ok: bool)
      modifies this`seen
      ensures ok == Accepts(old(seen), nonce, timestamp, now)
      ensures seen == Record(old(seen), nonce, timestamp, now)
    {
      if Width(nonce) != NONCE_BYTES {
        return false;
      }
      var skew := if now >= timestamp then now - timestamp else timestamp - now;
      if skew > TIMESTAMP_WINDOW_SECONDS {
        return false;
      }
      if nonce in seen {
        return false;
      }
      seen := seen[nonce := now];
      return true;
    }

    /** After a purge exactly the entries no older than the retention window remain, unchanged. */
    method PurgeOldNonces(now: int) returns (deleted: nat)
      modifies this`seen
      ensures forall n :: n in seen <==> n in old(seen) && old(seen)[n] >= now - NONCE_RETENTION_SECONDS
      ensures forall n :: n in seen ==> seen[n] == old(seen)[n]
      ensures seen == Purge(old(seen), now)
      ensures deleted == |old(seen)| - |seen|
    {
      var cutoff := now - NONCE_RETENTION_SECONDS;
      var gone := set n | n in seen && seen[n] < cutoff;
      ghost var before := seen.Keys;
      seen := seen - gone;
      assert seen.Keys == before - gone && gone <= before;
      assert |seen.Keys| == |before| - |gone|;
      deleted := |gone|;
    }

    method InsertFile(f: FileId, row: Row) returns (ok: bool)
      modifies this`files
      ensures ok == CanInsertFile(old(files), f, row)
      ensures files == if ok then old(files)[f := row] else old(files)
    {
      if !FitsSqlite(row.uploadTime) || !FitsSqlite(row.expiration) || f in files {
        return false;
      }
      files := files[f := row];
      return true;
    }

    method GetFile(f: FileId) returns (row: Option<Row>)
      ensures row == if f in files then Some(files[f]) else None
    {
      if f in files {
        return Some(files[f]);
      }
      return None;
    }

    method SetStatus(f: FileId, status: Status)
      modifies this`files
      ensures files == MarkStatus(old(files), f, status)
    {
      if f in files {
        files := files[f := files[f].(status := status)];
      }
    }

    /** Flips the overdue pending rows and counts them; every other row is untouched. */
    method ExpirePending(now: int) returns (flipped: nat)
      modifies this`files
      ensures files == MarkExpired(old(files), now)
      ensures flipped == |set f | f in old(files) && files[f] != old(files)[f]|
    {
      var overdue := set f | f in files && files[f].status == Pending && files[f].expiration < now;
      ghost var before := files;
      files := map f | f in files :: if f in overdue then files[f].(status := Expired) else files[f];
      flipped := |overdue|;
      assert overdue == set f | f in before && files[f] != before[f];
    }

    method AddAck(f: FileId, ack: AckRow) returns (ok: bool)
      modifies this`acks
      ensures ok == FitsSqlite(ack.ackTime)
      ensures acks == if ok then InsertAck(old(acks), f, ack) else old(acks)
    {
      if !FitsSqlite(ack.ackTime) {
        return false;
      }
      if f !in acks {
        acks := acks[f := ack];
      }
      return true;
    }
  }
}
