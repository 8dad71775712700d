/** The file system the program writes to, and the helpers of `fsutils.py`.

    A path is a directory (its components) and a file name. A file holds
    bytes, a Parquet table with its adjustment note, CSV records (a CSV
    file written through a `csv` writer is kept as its field names and its
    rows) or JSON lines (one object per line, kept as its ordered fields,
    null as None). The `history` records the state after each primitive
    step, so that what a reader could observe between the steps of a
    multi-step write can be stated. */
module FsUtils {
  import opened Wrappers
  import opened Text
  import opened Schema
  import opened Utf8
  import opened Seqs

  datatype Path = Path(dir: seq<string>, name: string)

  datatype FileData =
    | Bytes(bytes: seq<byte>)
    | Parquet(table: Table, adjustment: Option<string>)
    | Csv(fields: seq<string>, records: seq<map<string, string>>)
    | JsonLines(objects: seq<seq<(string, Option<string>)>>)

  /** `path.with_suffix(path.suffix + ".tmp")`: the name with ".tmp" appended. */
  function TmpPath(p: Path): (t: Path)
    ensures t.dir == p.dir && t != p && EndsWith(t.name, ".tmp")
  {
    var t := Path(p.dir, p.name + ".tmp");
    assert |t.name| > |p.name|;
    t
  }

  class FileSystem {
    var files: map<Path, FileData>
    ghost var history: seq<map<Path, FileData>>

    constructor (init: map<Path, FileData>)
      ensures files == init && history == [init]
    {
      files := init;
      history := [init];
    }

    /** Create or overwrite a file. */
    method Write(p: Path, d: FileData)
      modifies this
      ensures files == old(files)[p := d]
      ensures history == old(history) + [files]
    {
      files := files[p := d];
      history := history + [files];
    }

    /** `path.unlink(missing_ok=True)`. */
    method Unlink(p: Path)
      modifies this
      ensures files == old(files) - {p}
      ensures history == old(history) + [files]
    {
      files := files - {p};
      history := history + [files];
    }

    /** `os.replace(src, dst)` / `Path.replace`: the file at `src` moves to `dst`,
        replacing what was there. */
    method Replace(src: Path, dst: Path)
      requires src in files
      modifies this
      ensures files == (old(files) - {src})[dst := old(files)[src]]
      ensures history == old(history) + [files]
    {
      files := (files - {src})[dst := files[src]];
      history := history + [files];
    }

    /** The names of the files in a directory, in an order the model leaves
        open (directory listing order). */
    method ListDir(dir: seq<string>) returns (names: seq<string>)
      ensures forall n :: n in names <==> Path(dir, n) in files
      ensures forall i, j :: 0 <= i < j < |names| ==> names[i] != names[j]
    {
      var remaining := set p | p in files && p.dir == dir :: p.name;
      names := [];
      while remaining != {}
        invariant forall n :: n in names || n in remaining <==> Path(dir, n) in files
        invariant forall n :: n in names ==> n !in remaining
        invariant forall i, j :: 0 <= i < j < |names| ==> names[i] != names[j]
        decreases |remaining|
      {
        var n :| n in remaining;
        names := names + [n];
        remaining := remaining - {n};
      }
    }
  }

  /** The steps of an atomic write: write `path.tmp`, then move it onto `path`. */
  method AtomicWrite(fs: FileSystem, p: Path, d: FileData)
    modifies fs
    ensures fs.files == (old(fs.files) - {TmpPath(p)})[p := d]
    ensures fs.history == old(fs.history) + [old(fs.files)[TmpPath(p) := d], fs.files]
  {
    var tmp := TmpPath(p);
    fs.Write(tmp, d);
    fs.Replace(tmp, p);
  }

  /** `atomic_write_bytes`: afterwards the path holds exactly the data, no
      temporary file is left, nothing else changed, and no intermediate state
      shows a partly written `path`. */
  method AtomicWriteBytes(fs: FileSystem, p: Path, data: seq<byte>)
    modifies fs
    ensures fs.files == (old(fs.files) - {TmpPath(p)})[p := Bytes(data)]
    ensures p in fs.files && fs.files[p] == Bytes(data) && TmpPath(p) !in fs.files
    ensures forall q :: q != p && q != TmpPath(p) ==>
      (q in fs.files <==> q in old(fs.files)) && (q in fs.files ==> fs.files[q] == old(fs.files)[q])
    ensures forall k :: |old(fs.history)| <= k < |fs.history| ==>
      p in fs.history[k] ==> fs.history[k][p] == Bytes(data) || (p in old(fs.files) && fs.history[k][p] == old(fs.files)[p])
  {
    AtomicWrite(fs, p, Bytes(data));
  }

  /** `atomic_write_text`: the UTF-8 encoding of the text, written atomically. */
  method AtomicWriteText(fs: FileSystem, p: Path, text: string)
    modifies fs
    ensures fs.files == (old(fs.files) - {TmpPath(p)})[p := Bytes(Encode(text))]
    ensures ReadTextIfExists(fs, p) == Ok(Some(text))
  {
    AtomicWriteBytes(fs, p, Encode(text));
    DecodeEncode(text);
  }

  /** `read_text_if_exists`: None for a missing path, else the decoded text.
      Only files held as bytes have text in the model; reading a structured
      file is reported as a decoding error. */
  function ReadTextIfExists(fs: FileSystem, p: Path): (r: Result<Option<string>>)
    reads fs
    ensures r == Ok(None) <==> p !in fs.files
  {
    if p !in fs.files then Ok(None)
    else match fs.files[p]
      case Bytes(b) =>
        (match Decode(b)
         case Ok(t) => Ok(Some(t))
         case Err(e) => Err(e))
      case _ => Err(Exc("UnicodeDecodeError", "not text"))
  }

  /** `split_csv_line`: the comma-separated pieces, each stripped. */
  function SplitCsvLine(line: string): (r: seq<string>)
    ensures |r| == CountChar(line, ',') + 1
    ensures forall i :: 0 <= i < |r| ==> r[i] == Strip(Split(line, ',')[i])
  {
    var parts := Split(line, ',');
    seq(|parts|, i requires 0 <= i < |parts| => Strip(parts[i]))
  }

  /** Stripped pieces carry no whitespace at either end, and stripping them
      again changes nothing. */
  lemma SplitCsvLineStripped(line: string, i: nat)
    requires i < |SplitCsvLine(line)|
    ensures var item := SplitCsvLine(line)[i];
      Strip(item) == item && ',' !in item
  {
    var parts := Split(line, ',');
    StripIdempotent(parts[i]);
    StripKeepsOut(parts[i], ',');
    var item := SplitCsvLine(line)[i];
  }

  /** `iter_nonempty`: the non-empty strings, in order. */
  function IterNonempty(values: seq<string>): (r: seq<string>)
    ensures forall i :: 0 <= i < |r| ==> r[i] != ""
    ensures forall v :: v in r <==> v in values && v != ""
    ensures SubseqOf(r, values)
  {
    var r := Filter(values, (v: string) => v != "");
    FilterSubseq(values, (v: string) => v != "");
    forall v ensures v in r <==> v in values && v != "" {
      FilterMembers(values, (v: string) => v != "", v);
    }
    r
  }
}
