/**
 The values that travel through the Bubblewrap probe: helper results, the text
 that carries them over pipes and shared memory, and newline framing.

 JSON itself is a parameter: a `Codec` is any pair of encode/decode functions.
 The theorems that need more than that ask for `Faithful`: decoding undoes
 encoding and no encoding holds a raw newline, which is what `JSON.stringify`
 and `JSON.parse` give on these records.
 */
module ProbeWire {
  import opened Options

  type Byte = b: int | 0 <= b < 256
  type Text = seq<Byte>

  const NEWLINE: Byte := 10

  datatype ProbeResult =
    | Completed(path: string, status: Option<int>, signal: Option<string>, stdout: string, stderr: string)
    | NotFound
    | Timeout
    | Overflow
    | SpawnError(detail: string)

  /** The texts the probe puts into `spawnError` details; every result holds for any
      texts. */
  datatype Messages = Messages(
    noResult: string,
    noPid: string,
    oversize: string,
    notExecutable: string -> string,
    missingLoader: string -> string,
    invalidLine: string -> string,
    workerFailed: string -> string)

  /** `utf8` is the total, possibly lossy `Buffer.toString('utf8')`; `parseError`
      gives the message `JSON.parse` throws on a text it cannot decode. */
  datatype Codec = Codec(
    encode: ProbeResult -> Text,
    decode: Text -> Option<ProbeResult>,
    parseError: Text -> string,
    utf8: Text -> string,
    messages: Messages)

  ghost predicate Faithful(codec: Codec) {
    forall r: ProbeResult ::
      codec.decode(codec.encode(r)) == Some(r) && NEWLINE !in codec.encode(r)
  }

  /** One protocol line: an encoded result and its terminator. */
  function Line(codec: Codec, r: ProbeResult): Text {
    codec.encode(r) + [NEWLINE]
  }

  function FindNewline(text: Text, from: nat): (i: int)
    requires from <= |text|
    ensures i == -1 || (from <= i < |text| && text[i] == NEWLINE)
    ensures forall k :: from <= k < (if i < 0 then |text| else i) ==> text[k] != NEWLINE
    decreases |text| - from
  {
    if from == |text| then -1
    else if text[from] == NEWLINE then from
    else FindNewline(text, from + 1)
  }

  /** `text.indexOf('\n')`. */
  function NewlineAt(text: Text): (i: int)
    ensures -1 <= i < |text|
    ensures i >= 0 ==> text[i] == NEWLINE && NEWLINE !in text[..i]
    ensures i < 0 ==> NEWLINE !in text
  {
    FindNewline(text, 0)
  }

  /** The first newline is decided by whatever prefix already contains one. */
  lemma NewlineInPrefix(prefix: Text, text: Text)
    requires prefix <= text
    requires NewlineAt(prefix) >= 0
    ensures NewlineAt(text) == NewlineAt(prefix)
  {
    var i, j := NewlineAt(prefix), NewlineAt(text);
    assert text[i] == prefix[i] == NEWLINE;
    assert j >= 0;
    assert forall k :: 0 <= k < i ==> text[k] == prefix[..i][k] != NEWLINE;
    assert forall k :: 0 <= k < j ==> text[k] == text[..j][k] != NEWLINE;
  }

  /** A prefix of a single line that contains a newline is the whole line, and
      cutting it at that newline gives back the encoded result. */
  lemma PrefixOfLine(codec: Codec, r: ProbeResult, prefix: Text)
    requires Faithful(codec)
    requires prefix <= Line(codec, r)
    requires NewlineAt(prefix) >= 0
    ensures prefix == Line(codec, r)
    ensures prefix[..NewlineAt(prefix)] == codec.encode(r)
  {
    var encoded := codec.encode(r);
    var i := NewlineAt(prefix);
    assert NEWLINE !in encoded;
    assert forall k :: 0 <= k < |encoded| ==> Line(codec, r)[k] == encoded[k] != NEWLINE;
    assert prefix[..i] == encoded;
  }

  lemma LineIsOneLine(codec: Codec, r: ProbeResult)
    requires Faithful(codec)
    ensures NewlineAt(Line(codec, r)) == |codec.encode(r)|
  {
    assert Line(codec, r)[|codec.encode(r)|] == NEWLINE;
    PrefixOfLine(codec, r, Line(codec, r));
  }

  function Concat<T>(parts: seq<seq<T>>): seq<T> {
    if parts == [] then [] else Concat(parts[..|parts| - 1]) + parts[|parts| - 1]
  }

  lemma {:induction false} ConcatSnoc<T>(parts: seq<seq<T>>, last: seq<T>)
    ensures Concat(parts + [last]) == Concat(parts) + last
  {
    assert (parts + [last])[..|parts|] == parts;
  }

  function Min(a: nat, b: nat): nat {
    if a <= b then a else b
  }
}
