/**
 * The tensor-building and masking helpers of the query-suggestion model:
 * batching, word-to-index tensors with an unknown-token fallback and zero
 * padding, boolean length masks, and the minutes/seconds rendering of a
 * duration. Tensors of word indices are sequences of `int` (torch's int64 is
 * not bounded here); a 2-D tensor is a sequence of rows.
 */
module Helper {
  import opened Wrappers
  import opened Errors

  // ---------------------------------------------------------------------------
  // Vocabulary and instances (the types the helpers receive)
  // ---------------------------------------------------------------------------

  /** The vocabulary object: word-to-index map, ordered index-to-word list and the
      token that stands for every word the map does not hold. */
  datatype Dictionary = Dictionary(word2idx: map<string, int>, idx2word: seq<string>, unknownToken: string)

  /** A training instance: a query and the query that follows it. */
  datatype Instance = Instance(sentence1: seq<string>, sentence2: seq<string>)

  // ---------------------------------------------------------------------------
  // batchify
  // ---------------------------------------------------------------------------

  /** The concatenation of `batches`, in order. */
  function Flatten<T>(batches: seq<seq<T>>): seq<T>
  {
    if batches == [] then [] else Flatten(batches[..|batches| - 1]) + batches[|batches| - 1]
  }

  lemma BatchFits(n: nat, bsz: int, i: nat)
    requires bsz > 0 && i <= n / bsz
    ensures bsz * i <= bsz * (n / bsz) <= n
    ensures i > 0 ==> bsz * (i - 1) + bsz == bsz * i
  {
    var q := n / bsz;
    assert bsz * q + n % bsz == n;
    assert bsz * (q - i) >= 0;
    assert bsz * q - bsz * i == bsz * (q - i);
  }

  /** Batch `i` of the trimmed data: its items `bsz * i + j` for `j` in `range(bsz)`. */
  function Batch<T>(kept: seq<T>, bsz: nat, i: nat): (batch: seq<T>)
    requires bsz * i + bsz <= |kept|
    ensures |batch| == bsz
  {
    seq(bsz, j requires 0 <= j < bsz => kept[bsz * i + j])
  }

  /** `batchify(data, bsz)`: `|data| // bsz` batches of `bsz` consecutive items
      taken from the front of `data`. Floor division by zero raises; a negative
      `bsz` gives a batch count of at most zero, so an empty list. */
  function Batchify<T>(data: seq<T>, bsz: int): Result<seq<seq<T>>, Error>
  {
    if bsz == 0 then Err(ZeroDivisionError)
    else if bsz < 0 then Ok([])
    else
      var nbatch := |data| / bsz;
      BatchFits(|data|, bsz, 0);
      var kept := data[0..nbatch * bsz];
      Ok(seq(nbatch, i requires 0 <= i < nbatch => BatchFits(|data|, bsz, i + 1); Batch(kept, bsz, i)))
  }

  /** Batchify fails exactly on a zero batch size, and returns nothing for a negative one. */
  lemma BatchifyErrors<T>(data: seq<T>, bsz: int)
    ensures Batchify(data, bsz).Err? <==> bsz == 0
    ensures Batchify(data, bsz).Err? ==> Batchify(data, bsz).error == ZeroDivisionError
    ensures bsz < 0 ==> Batchify(data, bsz) == Ok([])
  {
  }

  /** Shape and contents: `|data| / bsz` batches, each of exactly `bsz` items, and
      item `j` of batch `i` is `data[bsz * i + j]`. */
  lemma BatchifyShape<T>(data: seq<T>, bsz: int)
    requires bsz > 0
    ensures Batchify(data, bsz).Ok?
    ensures var batches := Batchify(data, bsz).value;
      && |batches| == |data| / bsz
      && (forall i :: 0 <= i < |batches| ==> |batches[i]| == bsz)
      && (forall i, j :: 0 <= i < |batches| && 0 <= j < bsz ==>
            bsz * i + j < |data| && batches[i][j] == data[bsz * i + j])
  {
    var nbatch := |data| / bsz;
    BatchFits(|data|, bsz, 0);
    var kept := data[0..nbatch * bsz];
    var batches := Batchify(data, bsz).value;
    assert |batches| == nbatch;
    forall i | 0 <= i < nbatch
      ensures bsz * i + bsz <= |kept| && batches[i] == Batch(kept, bsz, i)
    {
      BatchFits(|data|, bsz, i + 1);
    }
    forall i, j | 0 <= i < |batches| && 0 <= j < bsz
      ensures bsz * i + j < |data| && batches[i][j] == data[bsz * i + j]
    {
      assert batches[i] == Batch(kept, bsz, i);
      assert batches[i][j] == kept[bsz * i + j];
    }
  }

  lemma {:induction false} FlattenBatchesPrefix<T>(data: seq<T>, bsz: int, k: nat)
    requires bsz > 0 && k <= |data| / bsz
    ensures Batchify(data, bsz).Ok?
    ensures bsz * k <= |data|
    ensures Flatten(Batchify(data, bsz).value[..k]) == data[..bsz * k]
  {
    var batches := Batchify(data, bsz).value;
    BatchifyShape(data, bsz);
    BatchFits(|data|, bsz, k);
    if k == 0 {
      assert batches[..0] == [];
    } else {
      FlattenBatchesPrefix(data, bsz, k - 1);
      var start := bsz * (k - 1);
      assert start + bsz == bsz * k;
      var last := batches[k - 1];
      assert batches[..k][..k - 1] == batches[..k - 1];
      assert Flatten(batches[..k]) == data[..start] + last;
      assert forall t :: 0 <= t < bsz ==> last[t] == data[start + t];
      assert data[..start] + last == data[..bsz * k];
    }
  }

  /** The batches laid end to end give back `data` with only its remainder
      dropped, and that remainder holds fewer than `bsz` items. */
  lemma BatchifyFlatten<T>(data: seq<T>, bsz: int)
    requires bsz > 0
    ensures Batchify(data, bsz).Ok?
    ensures var kept := Flatten(Batchify(data, bsz).value);
      && |kept| == bsz * (|data| / bsz) <= |data|
      && kept == data[..|kept|]
      && |data| - |kept| < bsz
  {
    var batches := Batchify(data, bsz).value;
    FlattenBatchesPrefix(data, bsz, |data| / bsz);
    assert batches[..|data| / bsz] == batches;
  }

  // ---------------------------------------------------------------------------
  // sequence_mask and mask
  // ---------------------------------------------------------------------------

  /** `sequence_length.data.max()` of a non-empty tensor of lengths. */
  function MaxLength(lengths: seq<int>): (m: int)
    requires |lengths| > 0
    ensures m in lengths
    ensures forall b :: 0 <= b < |lengths| ==> lengths[b] <= m
  {
    if |lengths| == 1 then lengths[0]
    else
      var rest := MaxLength(lengths[1..]);
      if lengths[0] < rest then rest else lengths[0]
  }

  /** The width of the mask grid, the number of positions `torch.range(0, max_len - 1)`
      yields: `max_len` when given, else the largest length; negative widths give no
      column. */
  function MaskWidth(lengths: seq<int>, maxLen: Option<int>): nat
    requires maxLen.Some? || |lengths| > 0
  {
    var w := if maxLen.Some? then maxLen.value else MaxLength(lengths);
    if w < 0 then 0 else w
  }

  /** `sequence_mask(sequence_length, max_len)`: a batch-by-max_len grid comparing
      each position with the row's length. Without `max_len` the widest length is
      used, which torch cannot compute for an empty batch. */
  function SequenceMask(lengths: seq<int>, maxLen: Option<int>): Result<seq<seq<bool>>, Error>
  {
    if maxLen.None? && |lengths| == 0 then Err(EmptyTensorMax)
    else
      var width := MaskWidth(lengths, maxLen);
      Ok(seq(|lengths|, b requires 0 <= b < |lengths| => seq(width, t => t < lengths[b])))
  }

  /** `mask(sequence_length, seq_idx)`: per batch row, whether `seq_idx` lies
      before the row's length. */
  function Mask(lengths: seq<int>, seqIdx: int): seq<bool>
  {
    seq(|lengths|, b requires 0 <= b < |lengths| => seqIdx < lengths[b])
  }

  /** Entry `[b][t]` of the grid holds exactly when `t < lengths[b]`; the grid has
      one row per batch element and `MaskWidth` columns; only an empty batch without
      `max_len` fails. */
  lemma SequenceMaskSpec(lengths: seq<int>, maxLen: Option<int>)
    ensures SequenceMask(lengths, maxLen).Ok? <==> maxLen.Some? || |lengths| > 0
    ensures SequenceMask(lengths, maxLen).Err? ==> SequenceMask(lengths, maxLen).error == EmptyTensorMax
    ensures SequenceMask(lengths, maxLen).Ok? ==>
      var grid := SequenceMask(lengths, maxLen).value;
      && |grid| == |lengths|
      && (forall b :: 0 <= b < |grid| ==> |grid[b]| == MaskWidth(lengths, maxLen))
      && (forall b, t :: 0 <= b < |grid| && 0 <= t < |grid[b]| ==> (grid[b][t] <==> t < lengths[b]))
  {
  }

  /** Column `t` of the `sequence_mask` grid is `mask(sequence_length, t)`. */
  lemma SequenceMaskColumns(lengths: seq<int>, maxLen: Option<int>)
    requires maxLen.Some? || |lengths| > 0
    ensures SequenceMask(lengths, maxLen).Ok?
    ensures var grid := SequenceMask(lengths, maxLen).value;
      forall b, t :: 0 <= b < |grid| && 0 <= t < |grid[b]| ==> grid[b][t] == Mask(lengths, t)[b]
  {
  }

  /** The number of `true` entries of a mask row. */
  function CountTrue(row: seq<bool>): nat
  {
    if row == [] then 0 else CountTrue(row[..|row| - 1]) + (if row[|row| - 1] then 1 else 0)
  }

  lemma {:induction false} CountLengthRow(width: nat, len: int)
    ensures CountTrue(seq(width, t => t < len)) == if len < 0 then 0 else if len < width then len else width
  {
    if width > 0 {
      CountLengthRow(width - 1, len);
      assert seq(width, t => t < len)[..width - 1] == seq(width - 1, t => t < len);
    }
  }

  /** Row `b` of the grid has `lengths[b]` leading `true` entries, clipped to the
      grid width; without `max_len` a longest row is entirely `true`. */
  lemma SequenceMaskRowCounts(lengths: seq<int>, maxLen: Option<int>)
    requires maxLen.Some? || |lengths| > 0
    ensures SequenceMask(lengths, maxLen).Ok?
    ensures var grid := SequenceMask(lengths, maxLen).value;
      var width := MaskWidth(lengths, maxLen);
      && (forall b :: 0 <= b < |grid| ==>
            CountTrue(grid[b]) == if lengths[b] < 0 then 0 else if lengths[b] < width then lengths[b] else width)
      && (maxLen.None? ==> exists b :: 0 <= b < |grid| && CountTrue(grid[b]) == |grid[b]|)
  {
    var grid := SequenceMask(lengths, maxLen).value;
    var width := MaskWidth(lengths, maxLen);
    forall b | 0 <= b < |grid|
      ensures CountTrue(grid[b]) == if lengths[b] < 0 then 0 else if lengths[b] < width then lengths[b] else width
    {
      assert grid[b] == seq(width, t => t < lengths[b]);
      CountLengthRow(width, lengths[b]);
    }
    if maxLen.None? {
      var m := MaxLength(lengths);
      var b :| 0 <= b < |lengths| && lengths[b] == m;
      assert CountTrue(grid[b]) == |grid[b]|;
    }
  }

  // ---------------------------------------------------------------------------
  // convert_to_minutes
  // ---------------------------------------------------------------------------

  /** Whole minutes and the leftover seconds of a duration. */
  datatype Duration = Duration(minutes: int, seconds: int)

  /** `m = floor(s / 60)` and `s - 60 * m`: the leftover lies in [0, 60) and the
      two parts give back `s`. */
  function SplitMinutes(s: int): (d: Duration)
    ensures d.minutes * 60 + d.seconds == s
    ensures 0 <= d.seconds < 60
  {
    var m := s / 60;
    Duration(m, s - m * 60)
  }

  /** The split is the only one with a leftover in [0, 60). */
  lemma SplitMinutesUnique(s: int, m: int, r: int)
    requires m * 60 + r == s && 0 <= r < 60
    ensures SplitMinutes(s) == Duration(m, r)
  {
    var d := SplitMinutes(s);
    assert (m - d.minutes) * 60 == d.seconds - r;
  }

  predicate IsDigit(c: char)
  {
    '0' <= c <= '9'
  }

  predicate IsDecimal(text: string)
  {
    |text| > 0 && forall i :: 0 <= i < |text| ==> IsDigit(text[i])
  }

  /** `%d` of a non-negative integer: its decimal digits, most significant first. */
  function NatToDecimal(n: nat): (text: string)
    ensures IsDecimal(text)
  {
    var digit := ['0' + (n % 10) as char];
    if n < 10 then digit else NatToDecimal(n / 10) + digit
  }

  /** `%d` of any integer: a minus sign before the digits of a negative one. */
  function IntToDecimal(i: int): string
  {
    if i < 0 then "-" + NatToDecimal(-i) else NatToDecimal(i)
  }

  /** `convert_to_minutes(s)` for a whole number of seconds: `'%dm %ds' % (m, s - 60 * m)`. */
  function ConvertToMinutes(s: int): string
  {
    var d := SplitMinutes(s);
    IntToDecimal(d.minutes) + "m " + IntToDecimal(d.seconds) + "s"
  }

  /** Reads back a string of decimal digits. */
  function DecimalToNat(text: string): nat
    requires forall i :: 0 <= i < |text| ==> IsDigit(text[i])
  {
    if text == [] then 0
    else
      var c := text[|text| - 1];
      assert IsDigit(c);
      DecimalToNat(text[..|text| - 1]) * 10 + (c as int - '0' as int)
  }

  function DecimalToInt(text: string): Option<int>
  {
    if |text| > 0 && text[0] == '-' && IsDecimal(text[1..]) then Some(-(DecimalToNat(text[1..]) as int))
    else if IsDecimal(text) then Some(DecimalToNat(text))
    else None
  }

  lemma {:induction false} NatToDecimalRoundTrip(n: nat)
    ensures DecimalToNat(NatToDecimal(n)) == n
  {
    var text := NatToDecimal(n);
    if n >= 10 {
      NatToDecimalRoundTrip(n / 10);
      assert text[..|text| - 1] == NatToDecimal(n / 10);
    }
  }

  lemma IntToDecimalRoundTrip(i: int)
    ensures DecimalToInt(IntToDecimal(i)) == Some(i)
  {
    NatToDecimalRoundTrip(if i < 0 then -i else i);
    if i < 0 {
      assert IntToDecimal(i)[1..] == NatToDecimal(-i);
    }
  }

  /** Position of the first `c` in `text`, or `|text|` when there is none. */
  function IndexOf(text: string, c: char): (k: nat)
    ensures k <= |text|
    ensures forall i :: 0 <= i < k ==> text[i] != c
    ensures k < |text| ==> text[k] == c
  {
    if text == [] then 0
    else if text[0] == c then 0
    else 1 + IndexOf(text[1..], c)
  }

  /** Reads a `'<m>m <s>s'` rendering back into its two numbers. */
  function ParseMinutes(text: string): Option<Duration>
  {
    var k := IndexOf(text, 'm');
    if k + 3 <= |text| && text[k + 1] == ' ' && text[|text| - 1] == 's' then
      match (DecimalToInt(text[..k]), DecimalToInt(text[k + 2..|text| - 1]))
      case (Some(m), Some(r)) => Some(Duration(m, r))
      case _ => None
    else None
  }

  /** The rendered duration determines the seconds it was made from: reading it
      back gives the split, and `60 * m + s` is the input. */
  lemma ConvertToMinutesRoundTrip(s: int)
    ensures ParseMinutes(ConvertToMinutes(s)) == Some(SplitMinutes(s))
    ensures var d := ParseMinutes(ConvertToMinutes(s)).value; d.minutes * 60 + d.seconds == s
  {
    var d := SplitMinutes(s);
    var mText, sText := IntToDecimal(d.minutes), IntToDecimal(d.seconds);
    var text := ConvertToMinutes(s);
    assert text == mText + "m " + sText + "s";
    assert forall i :: 0 <= i < |mText| ==> mText[i] != 'm' by {
      if d.minutes < 0 {
        assert forall i :: 1 <= i < |mText| ==> mText[i] == NatToDecimal(-d.minutes)[i - 1];
      }
    }
    assert text[|mText|] == 'm';
    assert IndexOf(text, 'm') == |mText|;
    assert text[..|mText|] == mText;
    assert text[|mText| + 2..|text| - 1] == sText;
    IntToDecimalRoundTrip(d.minutes);
    IntToDecimalRoundTrip(d.seconds);
  }

  // ---------------------------------------------------------------------------
  // sentence_to_tensor
  // ---------------------------------------------------------------------------

  /** The index written for `word`: its own index when the map holds it, else the
      unknown token's index; `None` when the unknown token is missing as well
      (the lookup then raises `KeyError`). */
  function WordIndex(d: Dictionary, word: string): Option<int>
  {
    if word in d.word2idx then Some(d.word2idx[word])
    else if d.unknownToken in d.word2idx then Some(d.word2idx[d.unknownToken])
    else None
  }

  /** Every word of `sentence` gets an index. */
  predicate AllKnown(d: Dictionary, sentence: seq<string>)
  {
    forall i :: 0 <= i < |sentence| ==> WordIndex(d, sentence[i]).Some?
  }

  /** The zero tensor `torch.LongTensor(n).zero_()`. */
  function Zeros(n: nat): (z: seq<int>)
  {
    seq(n, _ => 0)
  }

  /** Reference semantics of the write loop of `sentence_to_tensor` from position
      `i` on: look the word up (a missing unknown token raises first), then write
      it into `buffer[i]` (a position past the end raises). */
  function WriteFrom(sentence: seq<string>, d: Dictionary, i: nat, buffer: seq<int>): Result<seq<int>, Error>
    requires i <= |sentence|
    decreases |sentence| - i
  {
    if i == |sentence| then Ok(buffer)
    else match WordIndex(d, sentence[i])
      case None => Err(KeyError(d.unknownToken))
      case Some(v) =>
        if i < |buffer| then WriteFrom(sentence, d, i + 1, buffer[i := v]) else Err(IndexError(i))
  }

  /** `sentence_to_tensor(sentence, max_sent_length, dictionary)`. */
  function EncodeSentence(sentence: seq<string>, maxSentLength: nat, d: Dictionary): Result<seq<int>, Error>
  {
    WriteFrom(sentence, d, 0, Zeros(maxSentLength))
  }

  lemma {:induction false} WriteFromSpec(sentence: seq<string>, d: Dictionary, i: nat, buffer: seq<int>)
    requires i <= |sentence| && i <= |buffer|
    decreases |sentence| - i
    ensures var r := WriteFrom(sentence, d, i, buffer);
      && (r.Ok? <==> |sentence| <= |buffer| && forall k :: i <= k < |sentence| ==> WordIndex(d, sentence[k]).Some?)
      && (r.Ok? ==>
            && |r.value| == |buffer|
            && (forall k :: i <= k < |sentence| ==> r.value[k] == WordIndex(d, sentence[k]).value)
            && (forall k :: 0 <= k < |buffer| && (k < i || |sentence| <= k) ==> r.value[k] == buffer[k]))
      && (r.Err? ==>
            r.error == if exists k :: i <= k < |sentence| && k <= |buffer| && WordIndex(d, sentence[k]).None?
                       then KeyError(d.unknownToken) else IndexError(|buffer|))
  {
    if i < |sentence| {
      match WordIndex(d, sentence[i])
      case None =>
      case Some(v) =>
        if i < |buffer| {
          WriteFromSpec(sentence, d, i + 1, buffer[i := v]);
        }
    }
  }

  /** The tensor has `max_sent_length` entries: entry `i` is the index of word `i`
      (its own or the unknown token's) and every entry at or past `|sentence|` is 0.
      It fails exactly when a word has no index or the sentence is too long: with a
      `KeyError` on the unknown token when some word up to position `max_sent_length`
      has no index, otherwise with an `IndexError` at position `max_sent_length`. */
  lemma EncodeSentenceSpec(sentence: seq<string>, maxSentLength: nat, d: Dictionary)
    ensures var r := EncodeSentence(sentence, maxSentLength, d);
      && (r.Ok? <==> |sentence| <= maxSentLength && AllKnown(d, sentence))
      && (r.Ok? ==>
            && |r.value| == maxSentLength
            && (forall i :: 0 <= i < |sentence| ==> r.value[i] == WordIndex(d, sentence[i]).value)
            && (forall i :: |sentence| <= i < maxSentLength ==> r.value[i] == 0))
      && (r.Err? ==>
            r.error == if exists i :: 0 <= i < |sentence| && i <= maxSentLength && WordIndex(d, sentence[i]).None?
                       then KeyError(d.unknownToken) else IndexError(maxSentLength))
  {
    WriteFromSpec(sentence, d, 0, Zeros(maxSentLength));
  }

  /** A sentence no longer than the width can only fail on a word without index. */
  lemma EncodeFittingSentence(sentence: seq<string>, width: nat, d: Dictionary)
    requires |sentence| <= width
    ensures EncodeSentence(sentence, width, d).Ok? <==> AllKnown(d, sentence)
    ensures EncodeSentence(sentence, width, d).Err? ==>
      EncodeSentence(sentence, width, d).error == KeyError(d.unknownToken)
  {
    EncodeSentenceSpec(sentence, width, d);
  }

  /** The loop of `sentence_to_tensor` over a zeroed array. */
  method SentenceToTensor(sentence: seq<string>, maxSentLength: nat, d: Dictionary) returns (r: Result<seq<int>, Error>)
    ensures r == EncodeSentence(sentence, maxSentLength, d)
  {
    var rep := new int[maxSentLength](_ => 0);
    assert rep[..] == Zeros(maxSentLength);
    var i := 0;
    while i < |sentence|
      invariant i <= |sentence| && i <= rep.Length
      invariant WriteFrom(sentence, d, i, rep[..]) == EncodeSentence(sentence, maxSentLength, d)
    {
      var word := sentence[i];
      var index;
      if word in d.word2idx {
        index := d.word2idx[word];
      } else if d.unknownToken in d.word2idx {
        index := d.word2idx[d.unknownToken];
      } else {
        return Err(KeyError(d.unknownToken));
      }
      if i >= rep.Length {
        return Err(IndexError(i));
      }
      rep[i] := index;
      i := i + 1;
    }
    return Ok(rep[..]);
  }

  // ---------------------------------------------------------------------------
  // instances_to_tensors and queries_to_tensors
  // ---------------------------------------------------------------------------

  /** The error the first failing sentence of `inst` raises, `sentence1` first. */
  function InstanceError(inst: Instance, d: Dictionary, width1: nat, width2: nat): Option<Error>
  {
    var r1 := EncodeSentence(inst.sentence1, width1, d);
    var r2 := EncodeSentence(inst.sentence2, width2, d);
    if r1.Err? then Some(r1.error) else if r2.Err? then Some(r2.error) else None
  }

  /** `row1` / `row2` are `sentence_to_tensor` of the first / second sentence of
      `inst`, at widths `width1` / `width2`. */
  ghost predicate RowEncodes(inst: Instance, d: Dictionary, width1: nat, width2: nat, row1: seq<int>, row2: seq<int>)
  {
    && EncodeSentence(inst.sentence1, width1, d) == Ok(row1)
    && EncodeSentence(inst.sentence2, width2, d) == Ok(row2)
  }

  /** Row `i` of `rows1` / `rows2` encodes instance `i`. */
  ghost predicate RowsEncode(instances: seq<Instance>, d: Dictionary, width1: nat, width2: nat,
                             rows1: seq<seq<int>>, rows2: seq<seq<int>>)
  {
    && |rows1| == |instances| && |rows2| == |instances|
    && forall i :: 0 <= i < |instances| ==> RowEncodes(instances[i], d, width1, width2, rows1[i], rows2[i])
  }

  /** The two index tensors of `instances_to_tensors`. */
  datatype SentenceTensors = SentenceTensors(sentences1: seq<seq<int>>, sentences2: seq<seq<int>>)

  /** `instances_to_tensors(instances, dictionary, max_sent_length)`: one row per
      instance for each sentence; the first sentence that cannot be converted, in
      instance order, ends the call with its error. */
  method InstancesToTensors(instances: seq<Instance>, d: Dictionary, maxSentLength: nat)
    returns (r: Result<SentenceTensors, Error>)
    ensures r.Ok? <==>
      forall i :: 0 <= i < |instances| ==> InstanceError(instances[i], d, maxSentLength, maxSentLength).None?
    ensures r.Ok? ==>
      RowsEncode(instances, d, maxSentLength, maxSentLength, r.value.sentences1, r.value.sentences2)
    ensures r.Err? ==>
      exists k :: 0 <= k < |instances|
        && (forall j :: 0 <= j < k ==> InstanceError(instances[j], d, maxSentLength, maxSentLength).None?)
        && InstanceError(instances[k], d, maxSentLength, maxSentLength) == Some(r.error)
  {
    var all1 := new seq<int>[|instances|];
    var all2 := new seq<int>[|instances|];
    var i := 0;
    while i < |instances|
      invariant i <= |instances|
      invariant forall j :: 0 <= j < i ==> InstanceError(instances[j], d, maxSentLength, maxSentLength).None?
      invariant forall j :: 0 <= j < i ==> RowEncodes(instances[j], d, maxSentLength, maxSentLength, all1[j], all2[j])
    {
      var row1 := SentenceToTensor(instances[i].sentence1, maxSentLength, d);
      if row1.Err? {
        assert InstanceError(instances[i], d, maxSentLength, maxSentLength) == Some(row1.error);
        return Err(row1.error);
      }
      var row2 := SentenceToTensor(instances[i].sentence2, maxSentLength, d);
      if row2.Err? {
        assert InstanceError(instances[i], d, maxSentLength, maxSentLength) == Some(row2.error);
        return Err(row2.error);
      }
      all1[i] := row1.value;
      all2[i] := row2.value;
      i := i + 1;
    }
    return Ok(SentenceTensors(all1[..], all2[..]));
  }

  /** The first sentences of `instances`. */
  function Sentences1(instances: seq<Instance>): seq<seq<string>>
  {
    seq(|instances|, i requires 0 <= i < |instances| => instances[i].sentence1)
  }

  /** The second sentences of `instances`. */
  function Sentences2(instances: seq<Instance>): seq<seq<string>>
  {
    seq(|instances|, i requires 0 <= i < |instances| => instances[i].sentence2)
  }

  /** The running maximum of the sentence lengths, starting from 0. */
  function Longest(sentences: seq<seq<string>>): (m: nat)
    ensures forall i :: 0 <= i < |sentences| ==> |sentences[i]| <= m
  {
    if sentences == [] then 0
    else
      var m := Longest(sentences[..|sentences| - 1]);
      var last := |sentences[|sentences| - 1]|;
      if m < last then last else m
  }

  /** The running maximum is 0 or the length of some sentence. */
  lemma {:induction false} LongestAttained(sentences: seq<seq<string>>)
    ensures Longest(sentences) == 0 || exists i :: 0 <= i < |sentences| && |sentences[i]| == Longest(sentences)
  {
    if sentences != [] {
      var prefix := sentences[..|sentences| - 1];
      LongestAttained(prefix);
      if Longest(sentences) != |sentences[|sentences| - 1]| && Longest(sentences) != 0 {
        var i :| 0 <= i < |prefix| && |prefix[i]| == Longest(prefix);
        assert |sentences[i]| == Longest(sentences);
      }
    }
  }

  /** The three tensors of `queries_to_tensors`: padded first sentences, padded
      second sentences, and the target lengths. */
  datatype QueryTensors = QueryTensors(sentences1: seq<seq<int>>, sentences2: seq<seq<int>>, lengths: seq<int>)

  /** `queries_to_tensors(instances, dictionary)`: the widths are the longest first
      and longest second sentence, so no sentence is too long and the only failure
      left is a word without index (a `KeyError` on the unknown token); `lengths[i]`
      is the length of the second sentence minus one. */
  method QueriesToTensors(instances: seq<Instance>, d: Dictionary) returns (r: Result<QueryTensors, Error>)
    ensures r.Ok? <==>
      forall i :: 0 <= i < |instances| ==> AllKnown(d, instances[i].sentence1) && AllKnown(d, instances[i].sentence2)
    ensures r.Ok? ==>
      && RowsEncode(instances, d, Longest(Sentences1(instances)), Longest(Sentences2(instances)),
                    r.value.sentences1, r.value.sentences2)
      && |r.value.lengths| == |instances|
      && forall i :: 0 <= i < |instances| ==> r.value.lengths[i] == |instances[i].sentence2| - 1
    ensures r.Err? ==> r.error == KeyError(d.unknownToken)
  {
    var maxLength1, maxLength2 := LongestSentences(instances);
    var all1 := new seq<int>[|instances|];
    var all2 := new seq<int>[|instances|];
    var length := new int[|instances|];
    var i := 0;
    while i < |instances|
      invariant i <= |instances|
      invariant forall j :: 0 <= j < i ==> AllKnown(d, instances[j].sentence1) && AllKnown(d, instances[j].sentence2)
      invariant forall j :: 0 <= j < i ==> RowEncodes(instances[j], d, maxLength1, maxLength2, all1[j], all2[j])
      invariant forall j :: 0 <= j < i ==> length[j] == |instances[j].sentence2| - 1
    {
      assert |Sentences1(instances)[i]| <= maxLength1 && |Sentences2(instances)[i]| <= maxLength2;
      EncodeFittingSentence(instances[i].sentence1, maxLength1, d);
      EncodeFittingSentence(instances[i].sentence2, maxLength2, d);
      var row1 := SentenceToTensor(instances[i].sentence1, maxLength1, d);
      if row1.Err? {
        return Err(row1.error);
      }
      var row2 := SentenceToTensor(instances[i].sentence2, maxLength2, d);
      if row2.Err? {
        return Err(row2.error);
      }
      all1[i] := row1.value;
      all2[i] := row2.value;
      length[i] := |instances[i].sentence2| - 1;
      i := i + 1;
    }
    return Ok(QueryTensors(all1[..], all2[..], length[..]));
  }

  /** The first loop of `queries_to_tensors`: running maxima of the two sentence
      lengths, both starting from 0. */
  method LongestSentences(instances: seq<Instance>) returns (maxLength1: nat, maxLength2: nat)
    ensures maxLength1 == Longest(Sentences1(instances))
    ensures maxLength2 == Longest(Sentences2(instances))
  {
    maxLength1, maxLength2 := 0, 0;
    var i := 0;
    while i < |instances|
      invariant i <= |instances|
      invariant maxLength1 == Longest(Sentences1(instances)[..i])
      invariant maxLength2 == Longest(Sentences2(instances)[..i])
    {
      assert Sentences1(instances)[..i + 1][..i] == Sentences1(instances)[..i];
      assert Sentences2(instances)[..i + 1][..i] == Sentences2(instances)[..i];
      if maxLength1 < |instances[i].sentence1| {
        maxLength1 := |instances[i].sentence1|;
      }
      if maxLength2 < |instances[i].sentence2| {
        maxLength2 := |instances[i].sentence2|;
      }
      i := i + 1;
    }
    assert Sentences1(instances)[..i] == Sentences1(instances);
    assert Sentences2(instances)[..i] == Sentences2(instances);
  }
}
