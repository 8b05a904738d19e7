/**
 * `_prepare_bulk_uploads` and `read_uploaded_file_bounded`: reading a bulk
 * upload under a file count, a per-file and an aggregate limit, whatever sizes
 * the request declares.
 */
module Uploads {
  import opened Common
  import Framing

  type Bytes = Framing.Bytes

  /** One entry of `request.FILES`. `rewindable` says that it wraps an underlying file. */
  datatype Upload = Upload(declared: Option<int>, rewindable: bool, content: Bytes,
                           name: Framing.Text, contentType: Framing.Text)

  datatype Limits = Limits(maxFiles: int, perFile: int, maxTotal: int)

  datatype UploadError = TooManyFiles | OverTotal | OverDeclared | OverConfigured

  function Min(a: int, b: int): int {
    if a < b then a else b
  }

  /** The size of the first n files. */
  function Total(datas: seq<Bytes>, n: nat): nat
    requires n <= |datas|
  {
    if n == 0 then 0 else Total(datas, n - 1) + |datas[n - 1]|
  }

  function DeclaredTotal(uploads: seq<Upload>, n: nat): int
    requires n <= |uploads|
  {
    if n == 0 then 0
    else
      var last := uploads[n - 1].declared;
      DeclaredTotal(uploads, n - 1) + if last.Some? then last.value else 0
  }

  /** `str(name or "image")` */
  function PreparedName(name: Framing.Text): Framing.Text {
    if name == [] then [105, 109, 97, 103, 101] else name
  }

  function Prepared(upload: Upload, data: Bytes): Framing.File {
    Framing.File(PreparedName(upload.name), upload.contentType, data)
  }

  function FileLimit(limits: Limits, before: nat): int {
    Min(limits.perFile, limits.maxTotal - before)
  }

  /** A file that follows `before` bytes is read in full. */
  predicate FileAdmitted(limits: Limits, declared: Option<int>, size: nat, before: nat) {
    && before < limits.maxTotal
    && (declared.Some? ==> declared.value <= FileLimit(limits, before))
    && size <= FileLimit(limits, before)
  }

  /** The error that a file which is not admitted raises. */
  function FileError(limits: Limits, declared: Option<int>, before: nat): UploadError {
    if declared.Some? && declared.value > limits.perFile then OverDeclared
    else if limits.maxTotal - before < limits.perFile || limits.maxTotal <= before then OverTotal
    else OverConfigured
  }

  predicate CountsAdmitted(limits: Limits, uploads: seq<Upload>) {
    |uploads| <= limits.maxFiles && DeclaredTotal(uploads, |uploads|) <= limits.maxTotal
  }

  /** File i is admitted after the files before it. */
  predicate AdmittedAt(limits: Limits, uploads: seq<Upload>, datas: seq<Bytes>, i: nat)
    requires i < |uploads| == |datas|
  {
    FileAdmitted(limits, uploads[i].declared, |datas[i]|, Total(datas, i))
  }

  predicate FilesAdmitted(limits: Limits, uploads: seq<Upload>, datas: seq<Bytes>, n: nat)
    requires n <= |uploads| == |datas|
  {
    forall i | 0 <= i < n :: AdmittedAt(limits, uploads, datas, i)
  }

  predicate Admitted(limits: Limits, uploads: seq<Upload>, datas: seq<Bytes>)
    requires |uploads| == |datas|
  {
    CountsAdmitted(limits, uploads) && FilesAdmitted(limits, uploads, datas, |uploads|)
  }

  /** The first n files have been read in full. */
  predicate PreparedUpTo(uploads: seq<Upload>, datas: seq<Bytes>, files: seq<Framing.File>, n: nat)
    requires n <= |uploads| == |datas|
  {
    && |files| == n
    && forall i | 0 <= i < n :: files[i] == Prepared(uploads[i], datas[i])
  }

  lemma PreparedGrows(uploads: seq<Upload>, datas: seq<Bytes>, files: seq<Framing.File>, n: nat)
    requires n < |uploads| == |datas| && PreparedUpTo(uploads, datas, files, n)
    ensures PreparedUpTo(uploads, datas, files + [Prepared(uploads[n], datas[n])], n + 1)
  {}

  lemma FilesAdmittedGrows(limits: Limits, uploads: seq<Upload>, datas: seq<Bytes>, n: nat)
    requires n < |uploads| == |datas| && FilesAdmitted(limits, uploads, datas, n)
    requires AdmittedAt(limits, uploads, datas, n)
    ensures FilesAdmitted(limits, uploads, datas, n + 1) && Total(datas, n + 1) <= limits.maxTotal
  {}

  /** The most bytes that one request may take from its streams. */
  function PullBound(limits: Limits): nat {
    if limits.maxTotal < 0 then 0 else limits.maxTotal + 1
  }

  /** The scalars of an ASCII string. */
  function Letters(s: string): (text: Framing.Text)
    requires forall i | 0 <= i < |s| :: s[i] < '\U{80}'
    ensures |text| == |s| && forall i | 0 <= i < |s| :: text[i] == s[i] as int
  {
    seq(|s|, i requires 0 <= i < |s| => s[i] as int)
  }

  lemma ImageLetters()
    ensures forall name :: PreparedName(name) == if name == [] then Letters("image") else name
  {
    assert Letters("image") == [105, 109, 97, 103, 101];
  }

  method SumDeclared(uploads: seq<Upload>) returns (total: int)
    ensures total == DeclaredTotal(uploads, |uploads|)
  {
    total := 0;
    for i := 0 to |uploads|
      invariant total == DeclaredTotal(uploads, i)
    {
      if uploads[i].declared.Some? {
        total := total + uploads[i].declared.value;
      }
    }
  }

  lemma {:induction false} TotalGrows(datas: seq<Bytes>, m: nat, n: nat)
    requires m <= n <= |datas|
    ensures Total(datas, m) <= Total(datas, n)
    decreases n
  {
    if m == n {
    } else {
      TotalGrows(datas, m, n - 1);
    }
  }

  /** The request's files, their read positions, and the number of bytes taken from their streams. */
  class BulkRequest {
    const uploads: seq<Upload>
    var positions: seq<nat>
    var pulled: nat

    ghost predicate Valid()
      reads this
    {
      && |positions| == |uploads|
      && forall i | 0 <= i < |uploads| :: positions[i] <= |uploads[i].content|
    }

    constructor (uploads: seq<Upload>)
      ensures Valid() && this.uploads == uploads && pulled == 0
      ensures Datas() == seq(|uploads|, i requires 0 <= i < |uploads| => uploads[i].content)
    {
      this.uploads := uploads;
      positions := seq(|uploads|, _ => 0);
      pulled := 0;
    }

    /** What a read of file i to its end yields: a wrapped file is rewound first. */
    ghost function Readable(i: nat): Bytes
      requires Valid() && i < |uploads|
      reads this
    {
      if uploads[i].rewindable then uploads[i].content else uploads[i].content[positions[i]..]
    }

    ghost function Datas(): (datas: seq<Bytes>)
      requires Valid()
      reads this
      ensures |datas| == |uploads|
    {
      seq(|uploads|, i requires 0 <= i < |uploads| && Valid() reads this => Readable(i))
    }

    /** The files from i on have not been read since the given positions. */
    ghost predicate Untouched(start: seq<nat>, i: nat)
      requires Valid()
      reads this
    {
      |start| == |uploads| && forall j | i <= j < |uploads| :: positions[j] == start[j]
    }

    /** `file.read(size)`: a negative size reads to the end. */
    method Read(i: nat, size: int) returns (data: Bytes)
      requires Valid() && i < |uploads|
      modifies this
      ensures Valid()
      ensures var rest := uploads[i].content[old(positions[i])..];
              data == if 0 <= size < |rest| then rest[..size] else rest
      ensures positions == old(positions)[i := old(positions[i]) + |data|]
      ensures pulled == old(pulled) + |data|
    {
      var rest := uploads[i].content[positions[i]..];
      data := if 0 <= size < |rest| then rest[..size] else rest;
      positions := positions[i := positions[i] + |data|];
      pulled := pulled + |data|;
    }

    /** core/utils/uploads.py: `read_uploaded_file_bounded`. */
    method ReadBounded(i: nat, maxBytes: int) returns (r: Option<Bytes>)
      requires Valid() && i < |uploads|
      modifies this
      ensures Valid()
      ensures r.Some? <==>
              && (uploads[i].declared.Some? ==> uploads[i].declared.value <= maxBytes)
              && |old(Readable(i))| <= maxBytes
      ensures r.Some? ==> r.value == old(Readable(i)) && pulled == old(pulled) + |r.value|
      ensures -1 <= maxBytes ==> pulled <= old(pulled) + maxBytes + 1
      ensures old(pulled) <= pulled
      ensures forall j | 0 <= j < |uploads| && j != i :: positions[j] == old(positions[j])
    {
      if uploads[i].declared.Some? && uploads[i].declared.value > maxBytes {
        return None;
      }
      if uploads[i].rewindable {
        positions := positions[i := 0];
      }
      var data := Read(i, maxBytes + 1);
      if |data| > maxBytes {
        return None;
      }
      return Some(data);
    }

    /** One round of the reading loop of `_prepare_bulk_uploads`, after `total` bytes. */
    method PrepareNext(limits: Limits, i: nat, total: nat, ghost data: Bytes)
      returns (r: Result<Framing.File, UploadError>)
      requires Valid() && i < |uploads| && data == Readable(i)
      modifies this
      ensures Valid() && Untouched(old(positions), i + 1)
      ensures r.Success? <==> FileAdmitted(limits, uploads[i].declared, |data|, total)
      ensures r.Success? <==>
              && total < limits.maxTotal
              && |data| <= limits.perFile && total + |data| <= limits.maxTotal
              && (uploads[i].declared.Some? ==>
                    uploads[i].declared.value <= limits.perFile && total + uploads[i].declared.value <= limits.maxTotal)
      ensures r == Failure(OverDeclared) <==>
                uploads[i].declared.Some? && uploads[i].declared.value > limits.perFile
      ensures r == Failure(OverConfigured) <==>
              && total < limits.maxTotal && limits.perFile <= limits.maxTotal - total
              && (uploads[i].declared.Some? ==> uploads[i].declared.value <= limits.perFile)
              && |data| > limits.perFile
      ensures r.Success? ==> r.value == Prepared(uploads[i], data) && pulled == old(pulled) + |data|
      ensures r.Failure? ==> r.error == FileError(limits, uploads[i].declared, total)
      ensures -1 <= limits.perFile && total < limits.maxTotal ==> pulled <= old(pulled) + limits.maxTotal - total + 1
      ensures limits.maxTotal <= total ==> pulled == old(pulled)
    {
      var upload := uploads[i];
      if upload.declared.Some? && upload.declared.value > limits.perFile {
        return Failure(OverDeclared);
      }
      var remaining := limits.maxTotal - total;
      if remaining <= 0 {
        return Failure(OverTotal);
      }
      var limit := Min(limits.perFile, remaining);
      var item := ReadBounded(i, limit);
      if item.None? {
        return Failure(if remaining < limits.perFile then OverTotal else OverConfigured);
      }
      return Success(Prepared(upload, item.value));
    }

    /**
     * The reading loop of `_prepare_bulk_uploads`. On a failure, `culprit` is
     * the first file that is not admitted.
     */
    method PrepareFiles(limits: Limits, ghost datas: seq<Bytes>)
      returns (r: Result<seq<Framing.File>, UploadError>, ghost culprit: nat)
      requires Valid() && |datas| == |uploads|
      requires forall i | 0 <= i < |uploads| :: Readable(i) == datas[i]
      modifies this
      ensures Valid() && culprit <= |uploads|
      ensures FilesAdmitted(limits, uploads, datas, culprit)
      ensures r.Success? ==> culprit == |uploads| && PreparedUpTo(uploads, datas, r.value, |uploads|)
      ensures r.Success? ==> pulled == old(pulled) + Total(datas, |datas|)
      ensures r.Failure? ==>
              && culprit < |uploads|
              && !AdmittedAt(limits, uploads, datas, culprit)
              && r.error == FileError(limits, uploads[culprit].declared, Total(datas, culprit))
      ensures -1 <= limits.perFile ==> pulled <= old(pulled) + PullBound(limits)
    {
      ghost var start := positions;
      var prepared: seq<Framing.File> := [];
      var total := 0;
      culprit := 0;
      for i := 0 to |uploads|
        invariant Valid() && culprit == i && Untouched(start, i)
        invariant PreparedUpTo(uploads, datas, prepared, i)
        invariant FilesAdmitted(limits, uploads, datas, i)
        invariant total == Total(datas, i) && pulled == old(pulled) + total
        invariant total <= if limits.maxTotal < 0 then 0 else limits.maxTotal
      {
        assert datas[i] == old(Readable(i)) == Readable(i);
        var item := PrepareNext(limits, i, total, datas[i]);
        if item.Failure? {
          return Failure(item.error), i;
        }
        PreparedGrows(uploads, datas, prepared, i);
        FilesAdmittedGrows(limits, uploads, datas, i);
        prepared := prepared + [item.value];
        total := total + |item.value.data|;
        culprit := i + 1;
      }
      r := Success(prepared);
    }

    /** images/api/uploads.py: `_prepare_bulk_uploads`. */
    method PrepareBulk(limits: Limits) returns (r: Result<seq<Framing.File>, UploadError>, ghost culprit: nat)
      requires Valid()
      modifies this
      ensures Valid()
      ensures r.Success? <==> Admitted(limits, uploads, old(Datas()))
      ensures r.Success? ==> PreparedUpTo(uploads, old(Datas()), r.value, |uploads|)
      ensures r.Success? ==> |r.value| == |uploads|
      ensures r.Success? ==>
                forall i | 0 <= i < |uploads| ::
                  && r.value[i].data == old(Datas())[i] && r.value[i].contentType == uploads[i].contentType
                  && r.value[i].name == if uploads[i].name == [] then Letters("image") else uploads[i].name
      ensures r.Success? ==> pulled == old(pulled) + Total(old(Datas()), |uploads|)
      ensures r.Failure? && !CountsAdmitted(limits, uploads) ==>
              && pulled == old(pulled)
              && r.error == if |uploads| > limits.maxFiles then TooManyFiles else OverTotal
      ensures r == Failure(TooManyFiles) <==> |uploads| > limits.maxFiles
      ensures r.Failure? && CountsAdmitted(limits, uploads) ==>
              && culprit < |uploads|
              && FilesAdmitted(limits, uploads, old(Datas()), culprit)
              && !AdmittedAt(limits, uploads, old(Datas()), culprit)
              && r.error == FileError(limits, uploads[culprit].declared, Total(old(Datas()), culprit))
      ensures -1 <= limits.perFile ==> pulled <= old(pulled) + PullBound(limits)
    {
      ghost var datas := Datas();
      if |uploads| > limits.maxFiles {
        return Failure(TooManyFiles), 0;
      }
      var declaredTotal := SumDeclared(uploads);
      if declaredTotal > limits.maxTotal {
        return Failure(OverTotal), 0;
      }
      r, culprit := PrepareFiles(limits, datas);
      ImageLetters();
    }
  }

  // ---------- What the admission rule means ----------

  /** Every limit is kept by what was read, whatever sizes were declared. */
  lemma {:induction false} AdmittedWithinLimits(limits: Limits, uploads: seq<Upload>, datas: seq<Bytes>, n: nat)
    requires n <= |uploads| == |datas| && FilesAdmitted(limits, uploads, datas, n)
    ensures forall i | 0 <= i < n :: |datas[i]| <= limits.perFile
    ensures n > 0 ==> Total(datas, n) <= limits.maxTotal
  {
    forall i | 0 <= i < n ensures |datas[i]| <= limits.perFile {
      assert AdmittedAt(limits, uploads, datas, i);
    }
    if n == 0 {
    } else {
      assert AdmittedAt(limits, uploads, datas, n - 1);
    }
  }

  /** The documented limits: count, size of each file, size of all files. */
  predicate WithinLimits(limits: Limits, datas: seq<Bytes>) {
    && |datas| <= limits.maxFiles
    && (forall i | 0 <= i < |datas| :: |datas[i]| <= limits.perFile)
    && Total(datas, |datas|) <= limits.maxTotal
  }

  /** Sizes are declared truthfully or not at all. */
  predicate Honest(uploads: seq<Upload>, datas: seq<Bytes>) {
    && |uploads| == |datas|
    && forall i | 0 <= i < |uploads| :: uploads[i].declared.Some? ==> uploads[i].declared.value == |datas[i]|
  }

  lemma {:induction false} HonestTotal(uploads: seq<Upload>, datas: seq<Bytes>, n: nat)
    requires Honest(uploads, datas) && n <= |datas|
    ensures DeclaredTotal(uploads, n) <= Total(datas, n)
  {
    if n == 0 {
    } else {
      HonestTotal(uploads, datas, n - 1);
    }
  }

  /** Only declared sizes count, each once: nothing when none is declared, and the true total when all are. */
  lemma {:induction false} DeclaredExactly(uploads: seq<Upload>, datas: seq<Bytes>, n: nat)
    requires Honest(uploads, datas) && n <= |datas|
    ensures (forall i | 0 <= i < n :: uploads[i].declared.None?) ==> DeclaredTotal(uploads, n) == 0
    ensures (forall i | 0 <= i < n :: uploads[i].declared.Some?) ==> DeclaredTotal(uploads, n) == Total(datas, n)
  {
    if n == 0 {
    } else {
      DeclaredExactly(uploads, datas, n - 1);
    }
  }

  /** The files before the last one leave at least one byte of the total free. */
  predicate LastFileHasRoom(limits: Limits, datas: seq<Bytes>) {
    datas != [] ==> Total(datas, |datas| - 1) < limits.maxTotal
  }

  lemma AdmittedHasRoom(limits: Limits, uploads: seq<Upload>, datas: seq<Bytes>)
    requires Honest(uploads, datas) && Admitted(limits, uploads, datas)
    ensures WithinLimits(limits, datas) && LastFileHasRoom(limits, datas)
  {
    var n := |datas|;
    AdmittedWithinLimits(limits, uploads, datas, n);
    if n > 0 {
      assert AdmittedAt(limits, uploads, datas, n - 1);
    } else {
      assert uploads == [] && datas == [];
    }
  }

  lemma RoomAdmits(limits: Limits, uploads: seq<Upload>, datas: seq<Bytes>, i: nat)
    requires Honest(uploads, datas) && WithinLimits(limits, datas) && LastFileHasRoom(limits, datas)
    requires i < |datas|
    ensures AdmittedAt(limits, uploads, datas, i)
  {
    TotalGrows(datas, i, |datas| - 1);
    TotalGrows(datas, i + 1, |datas|);
  }

  /**
   * For truthful requests the documented limits are not the whole rule: the
   * files before the last one must leave at least one byte of the total free,
   * or the last file is refused even when it is empty.
   */
  lemma HonestAdmittedExactly(limits: Limits, uploads: seq<Upload>, datas: seq<Bytes>)
    requires Honest(uploads, datas)
    ensures Admitted(limits, uploads, datas) <==> WithinLimits(limits, datas) && LastFileHasRoom(limits, datas)
  {
    HonestTotal(uploads, datas, |datas|);
    if Admitted(limits, uploads, datas) {
      AdmittedHasRoom(limits, uploads, datas);
    }
    if WithinLimits(limits, datas) && LastFileHasRoom(limits, datas) {
      forall i | 0 <= i < |datas|
        ensures AdmittedAt(limits, uploads, datas, i)
      {
        RoomAdmits(limits, uploads, datas, i);
      }
    }
  }

  /** A truthful request within every documented limit that is refused: one byte, then an empty file. */
  lemma EmptyFileAtFullTotalIsRefused()
    ensures var uploads := [Upload(Some(1), true, [7], [], []), Upload(Some(0), true, [], [], [])];
            var datas: seq<Bytes> := [[7], []];
            var limits := Limits(20, 1, 1);
            Honest(uploads, datas) && WithinLimits(limits, datas) && !Admitted(limits, uploads, datas)
  {
    var uploads := [Upload(Some(1), true, [7], [], []), Upload(Some(0), true, [], [], [])];
    var datas: seq<Bytes> := [[7], []];
    var limits := Limits(20, 1, 1);
    assert Total(datas, 1) == 1 && Total(datas, 2) == 1;
    assert Honest(uploads, datas);
    HonestAdmittedExactly(limits, uploads, datas);
  }
}
