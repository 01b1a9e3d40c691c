/**
 * Construction-time structure of the four decoders of the sequence-to-sequence
 * model (`Decoder`, `AttentionDecoder`, `GloballyAttentiveDecoder`,
 * `LocallyAttentiveDecoder`): the validation of the recurrent-cell name, the
 * shapes of the layers each constructor creates, and the initialisation of the
 * embedding table from pretrained vectors. The forward passes are numerics over
 * torch and are not part of this model; table entries are of an abstract type `E`.
 */
module Decoders {
  import opened Wrappers
  import opened Errors
  import opened Helper

  // ---------------------------------------------------------------------------
  // The recurrent-cell dispatch shared by every constructor
  // ---------------------------------------------------------------------------

  datatype Nonlinearity = Tanh | Relu

  /** The recurrent core: `nn.LSTM`, `nn.GRU`, or `nn.RNN` with a nonlinearity. */
  datatype Cell = LSTM | GRU | RNN(nonlinearity: Nonlinearity)

  /** The names built directly as the torch module of the same name. */
  const GatedCellNames: seq<string> := ["LSTM", "GRU"]

  /** The plain-RNN options and the nonlinearity each selects. */
  const Nonlinearities: map<string, Nonlinearity> := map["RNN_TANH" := Tanh, "RNN_RELU" := Relu]

  /** Every value of `--model` a decoder accepts. */
  const ModelNames: set<string> := (set n | n in GatedCellNames) + Nonlinearities.Keys

  /** The `config.model` dispatch of the constructors: a gated cell by its own
      name, else a nonlinearity looked up for a plain RNN, else `ValueError`. */
  function SelectCell(model: string): Result<Cell, Error>
  {
    if model in GatedCellNames then Ok(if model == "LSTM" then LSTM else GRU)
    else if model in Nonlinearities then Ok(RNN(Nonlinearities[model]))
    else Err(InvalidModelName(model))
  }

  /** The option name that selects `cell`. */
  function CellName(cell: Cell): string
  {
    match cell
    case LSTM => "LSTM"
    case GRU => "GRU"
    case RNN(Tanh) => "RNN_TANH"
    case RNN(Relu) => "RNN_RELU"
  }

  /** The four names are accepted and every other name is rejected with `ValueError`. */
  lemma SelectCellAccepts(model: string)
    ensures SelectCell(model).Ok? <==> model in ModelNames
    ensures SelectCell(model).Err? ==> SelectCell(model).error == InvalidModelName(model)
  {
  }

  /** `LSTM` and `GRU` select the gated cell of that name, `RNN_TANH` and
      `RNN_RELU` a plain RNN with tanh and relu. */
  lemma SelectCellChoices()
    ensures SelectCell("LSTM") == Ok(LSTM) && SelectCell("GRU") == Ok(GRU)
    ensures SelectCell("RNN_TANH") == Ok(RNN(Tanh)) && SelectCell("RNN_RELU") == Ok(RNN(Relu))
  {
  }

  /** The dispatch and `CellName` are inverse: each cell is selected by its name,
      and an accepted name is the name of the cell it selects. */
  lemma SelectCellRoundTrip(cell: Cell, model: string)
    ensures SelectCell(CellName(cell)) == Ok(cell)
    ensures SelectCell(model).Ok? ==> CellName(SelectCell(model).value) == model
  {
  }

  // ---------------------------------------------------------------------------
  // The layers each constructor builds
  // ---------------------------------------------------------------------------

  /** The command-line configuration the constructors read. */
  datatype Config = Config(model: string, emsize: nat, nhid: nat, nlayers: nat, dropout: real)

  /** Which of the four decoder classes is constructed. */
  datatype Variant = Plain | Attentive | GloballyAttentive | LocallyAttentive

  /** `nn.Linear(inFeatures, outFeatures)`. */
  datatype Linear = Linear(inFeatures: nat, outFeatures: nat)

  /** A parameter matrix of `rows` by `cols` entries. */
  datatype Shape = Shape(rows: nat, cols: nat)

  /** The recurrent module: cell, input width, hidden width, layer count and dropout
      (always `batch_first`). */
  datatype Recurrent = Recurrent(cell: Cell, inputSize: nat, hiddenSize: nat, numLayers: nat, dropout: real)

  /** The attention parameters of each variant. */
  datatype Attention =
    | NoAttention
      /** `attn` scores `max_sent_length` positions; `attn_combine` maps back to `nhid`. */
    | LearnedPositions(attn: Linear, attnCombine: Linear)
      /** Bilinear `weight`. */
    | Bilinear(weight: Shape, attnCombine: Linear)
      /** Bilinear `weight`, position predictor `weight_p` and `weight_v`, Gaussian window. */
    | Windowed(weight: Shape, weightP: Shape, weightV: Shape, attnCombine: Linear, windowSize: nat)

  /** The modules and parameters of a constructed decoder. */
  datatype Architecture = Architecture(
    vocabSize: nat, embeddingDim: nat, dropout: real, out: Linear, rnn: Recurrent, attention: Attention)

  /** `nn.Dropout(p)` accepts a probability `p` in [0, 1] and raises `ValueError`
      for any other. */
  predicate ValidDropout(rate: real)
  {
    0.0 <= rate <= 1.0
  }

  /** The globally and locally attentive constructors draw their `nhid` by `nhid`
      `weight` with `init.xavier_normal`, whose standard deviation divides by
      `fan_in + fan_out = 2 * nhid`: a hidden size of 0 raises `ZeroDivisionError`. */
  predicate XavierInitialised(variant: Variant)
  {
    variant == GloballyAttentive || variant == LocallyAttentive
  }

  /** The configurations the constructor of `variant` accepts. */
  predicate Accepted(variant: Variant, config: Config)
  {
    && ValidDropout(config.dropout)
    && (XavierInitialised(variant) ==> config.nhid > 0)
    && config.model in ModelNames
  }

  /** The error the constructor of `variant` raises for a configuration it does not
      accept: the dropout rate is checked first, then the Xavier initialisation
      runs, then the model name is dispatched. */
  function RejectionOf(variant: Variant, config: Config): Error
  {
    if !ValidDropout(config.dropout) then InvalidDropout(config.dropout)
    else if XavierInitialised(variant) && config.nhid == 0 then ZeroDivisionError
    else InvalidModelName(config.model)
  }

  /** The attention parameters the constructor of `variant` creates. */
  function AttentionOf(variant: Variant, config: Config, maxSentLength: nat): Attention
  {
    var nhid := config.nhid;
    match variant
    case Plain => NoAttention
    case Attentive => LearnedPositions(Linear(nhid * 2, maxSentLength), Linear(nhid * 2, nhid))
    case GloballyAttentive => Bilinear(Shape(nhid, nhid), Linear(nhid * 2, nhid))
    case LocallyAttentive => Windowed(Shape(nhid, nhid), Shape(nhid, nhid), Shape(1, nhid), Linear(nhid * 2, nhid), 3)
  }

  /** The constructor of `variant` for a vocabulary of `inputSize` words
      (`maxSentLength` is read by `AttentionDecoder` only). The recurrent input is
      the embedding, widened by the previous context for the globally attentive
      decoder. `self.drop = nn.Dropout(config.dropout)` runs before the model
      dispatch, so a dropout rate outside [0, 1] raises `ValueError` first; the
      Xavier initialisation of the two bilinear decoders then raises
      `ZeroDivisionError` for a hidden size of 0; an unsupported `config.model`
      finally raises `ValueError`. */
  function Configure(variant: Variant, inputSize: nat, config: Config, maxSentLength: nat): Result<Architecture, Error>
  {
    if !ValidDropout(config.dropout) then Err(InvalidDropout(config.dropout))
    else if XavierInitialised(variant) && config.nhid == 0 then Err(ZeroDivisionError)
    else
      match SelectCell(config.model)
      case Err(e) => Err(e)
      case Ok(cell) =>
        var rnnInput := if variant == GloballyAttentive then config.emsize + config.nhid else config.emsize;
        Ok(Architecture(inputSize, config.emsize, config.dropout, Linear(config.nhid, inputSize),
                        Recurrent(cell, rnnInput, config.nhid, config.nlayers, config.dropout),
                        AttentionOf(variant, config, maxSentLength)))
  }

  /** A decoder accepts a configuration exactly when it has a dropout rate in [0, 1],
      a positive hidden size for the Xavier-initialised decoders, and one of the four
      names; it rejects every other with the first failing check's error. For a
      positive hidden size all four decoders accept exactly the same configurations,
      and they reject a bad dropout rate or model name with the same `ValueError`. */
  lemma ConfigureAcceptsSameNames(v1: Variant, v2: Variant, inputSize: nat, config: Config, maxSentLength: nat)
    ensures Configure(v1, inputSize, config, maxSentLength).Ok? <==> Accepted(v1, config)
    ensures Configure(v1, inputSize, config, maxSentLength).Err? ==>
      Configure(v1, inputSize, config, maxSentLength).error == RejectionOf(v1, config)
    ensures config.nhid > 0 ==>
      (Configure(v1, inputSize, config, maxSentLength).Ok? <==> Configure(v2, inputSize, config, maxSentLength).Ok?)
    ensures config.nhid > 0 && Configure(v1, inputSize, config, maxSentLength).Err? ==>
      Configure(v1, inputSize, config, maxSentLength).error ==
        if ValidDropout(config.dropout) then InvalidModelName(config.model) else InvalidDropout(config.dropout)
  {
    SelectCellAccepts(config.model);
  }

  /** An accepted configuration builds the cell its name selects, with `nhid` units,
      `nlayers` layers and the configured dropout; its input width is
      `emsize + nhid` for the globally attentive decoder and `emsize` for the
      others; the embedding is `inputSize` by `emsize` and the output projection
      maps `nhid` to `inputSize`. */
  lemma ConfigureRecurrent(variant: Variant, inputSize: nat, config: Config, maxSentLength: nat)
    requires Accepted(variant, config)
    ensures Configure(variant, inputSize, config, maxSentLength).Ok?
    ensures var arch := Configure(variant, inputSize, config, maxSentLength).value;
      && CellName(arch.rnn.cell) == config.model
      && arch.rnn.inputSize == (if variant == GloballyAttentive then config.emsize + config.nhid else config.emsize)
      && arch.rnn.hiddenSize == config.nhid
      && arch.rnn.numLayers == config.nlayers
      && arch.rnn.dropout == config.dropout
      && arch.vocabSize == inputSize && arch.embeddingDim == config.emsize
      && arch.out == Linear(config.nhid, inputSize)
  {
    SelectCellRoundTrip(LSTM, config.model);
  }

  /** Only the attentive decoders carry attention parameters, each decoder its own
      kind; each combines a context with a recurrent output through a `2 * nhid` to
      `nhid` layer, the attention decoder scores `max_sent_length` positions, the
      bilinear and position weights are `nhid` by `nhid`, and the windowed decoder
      has a window of 3. */
  lemma ConfigureAttention(variant: Variant, inputSize: nat, config: Config, maxSentLength: nat)
    requires Accepted(variant, config)
    ensures Configure(variant, inputSize, config, maxSentLength).Ok?
    ensures var a := Configure(variant, inputSize, config, maxSentLength).value.attention;
      && (a.NoAttention? <==> variant == Plain)
      && (a.LearnedPositions? <==> variant == Attentive)
      && (a.Bilinear? <==> variant == GloballyAttentive)
      && (!a.NoAttention? ==> a.attnCombine == Linear(2 * config.nhid, config.nhid))
      && (a.LearnedPositions? ==> a.attn == Linear(2 * config.nhid, maxSentLength))
      && (a.Bilinear? || a.Windowed? ==> a.weight == Shape(config.nhid, config.nhid))
      && (a.Windowed? <==> variant == LocallyAttentive)
      && (a.Windowed? ==>
            a.windowSize == 3 && a.weightP == Shape(config.nhid, config.nhid) && a.weightV == Shape(1, config.nhid))
  {
    SelectCellAccepts(config.model);
  }

  // ---------------------------------------------------------------------------
  // init_embedding_weights
  // ---------------------------------------------------------------------------

  /** numpy's assignment of `vector` to a table row of `width` entries: a vector of
      that width is copied, a one-entry vector is broadcast along the row, and any
      other length raises `ValueError`. */
  function BroadcastRow<E>(vector: seq<E>, width: nat): Result<seq<E>, Error>
  {
    if |vector| == width then Ok(vector)
    else if |vector| == 1 then Ok(seq(width, _ => vector[0]))
    else Err(BroadcastError(|vector|, width))
  }

  /** Row `i` of `pretrained_weight`: the pretrained vector of word `i` when the
      index holds it, else the random vector drawn for that row. */
  function PretrainedRow<E>(d: Dictionary, embeddingsIndex: map<string, seq<E>>, embeddingDim: nat,
                            fallback: seq<seq<E>>, i: nat): Result<seq<E>, Error>
    requires i < |d.idx2word| && i < |fallback|
  {
    var word := d.idx2word[i];
    if word in embeddingsIndex then BroadcastRow(embeddingsIndex[word], embeddingDim) else Ok(fallback[i])
  }

  /** The first `n` rows of `pretrained_weight`, filled in index order; the first
      row that cannot be assigned raises its error. */
  function PretrainedTable<E>(d: Dictionary, embeddingsIndex: map<string, seq<E>>, embeddingDim: nat,
                              fallback: seq<seq<E>>, n: nat): Result<seq<seq<E>>, Error>
    requires n <= |d.idx2word| && n <= |fallback|
  {
    if n == 0 then Ok([])
    else match PretrainedTable(d, embeddingsIndex, embeddingDim, fallback, n - 1)
      case Err(e) => Err(e)
      case Ok(rows) =>
        match PretrainedRow(d, embeddingsIndex, embeddingDim, fallback, n - 1)
        case Err(e) => Err(e)
        case Ok(row) => Ok(rows + [row])
  }

  /** The table is `n` rows of `embeddingDim` entries; row `i` is the pretrained
      vector of word `i` when the index holds one of that width (or broadcasts a
      one-entry vector), and the fallback vector when the index lacks the word.
      It fails exactly when some row does, with the error of the first failing row. */
  lemma {:induction false} PretrainedTableSpec<E>(d: Dictionary, embeddingsIndex: map<string, seq<E>>,
                                                 embeddingDim: nat, fallback: seq<seq<E>>, n: nat)
    requires n <= |d.idx2word| && n <= |fallback|
    requires forall i :: 0 <= i < |fallback| ==> |fallback[i]| == embeddingDim
    ensures var t := PretrainedTable(d, embeddingsIndex, embeddingDim, fallback, n);
      && (t.Ok? <==> forall i :: 0 <= i < n ==> PretrainedRow(d, embeddingsIndex, embeddingDim, fallback, i).Ok?)
      && (t.Ok? ==>
            && |t.value| == n
            && (forall i :: 0 <= i < n ==> |t.value[i]| == embeddingDim)
            && (forall i :: 0 <= i < n && d.idx2word[i] in embeddingsIndex ==>
                  Ok(t.value[i]) == BroadcastRow(embeddingsIndex[d.idx2word[i]], embeddingDim))
            && (forall i :: 0 <= i < n && d.idx2word[i] !in embeddingsIndex ==> t.value[i] == fallback[i]))
      && (t.Err? ==>
            exists k :: 0 <= k < n
              && (forall i :: 0 <= i < k ==> PretrainedRow(d, embeddingsIndex, embeddingDim, fallback, i).Ok?)
              && PretrainedRow(d, embeddingsIndex, embeddingDim, fallback, k) == Err(t.error))
  {
    if n > 0 {
      PretrainedTableSpec(d, embeddingsIndex, embeddingDim, fallback, n - 1);
    }
  }

  /** A pretrained vector of the row's width is copied unchanged. */
  lemma PretrainedRowsCopied<E>(d: Dictionary, embeddingsIndex: map<string, seq<E>>,
                                embeddingDim: nat, fallback: seq<seq<E>>, i: nat)
    requires i < |d.idx2word| && i < |fallback|
    requires d.idx2word[i] in embeddingsIndex && |embeddingsIndex[d.idx2word[i]]| == embeddingDim
    ensures PretrainedRow(d, embeddingsIndex, embeddingDim, fallback, i) == Ok(embeddingsIndex[d.idx2word[i]])
  {
  }

  /** The table's in-vocabulary rows do not depend on the random draws: with any
      two fallbacks the fill fails or succeeds alike, and rows of words the index
      holds are identical. */
  lemma InVocabularyRowsDeterministic<E>(d: Dictionary, embeddingsIndex: map<string, seq<E>>,
                                         embeddingDim: nat, fallback1: seq<seq<E>>, fallback2: seq<seq<E>>)
    requires |fallback1| == |d.idx2word| && |fallback2| == |d.idx2word|
    requires forall i :: 0 <= i < |fallback1| ==> |fallback1[i]| == embeddingDim
    requires forall i :: 0 <= i < |fallback2| ==> |fallback2[i]| == embeddingDim
    ensures var t1 := PretrainedTable(d, embeddingsIndex, embeddingDim, fallback1, |d.idx2word|);
      var t2 := PretrainedTable(d, embeddingsIndex, embeddingDim, fallback2, |d.idx2word|);
      && (t1.Ok? <==> t2.Ok?)
      && (t1.Ok? && t2.Ok? ==>
            && |t1.value| == |t2.value| == |d.idx2word|
            && forall i :: 0 <= i < |d.idx2word| && d.idx2word[i] in embeddingsIndex ==> t1.value[i] == t2.value[i])
  {
    var n := |d.idx2word|;
    PretrainedTableSpec(d, embeddingsIndex, embeddingDim, fallback1, n);
    PretrainedTableSpec(d, embeddingsIndex, embeddingDim, fallback2, n);
    assert forall i :: 0 <= i < n ==>
      (PretrainedRow(d, embeddingsIndex, embeddingDim, fallback1, i).Ok? <==>
       PretrainedRow(d, embeddingsIndex, embeddingDim, fallback2, i).Ok?);
  }

  /** Once a prefix of the table fails, the whole table fails with the same error. */
  lemma {:induction false} PretrainedTableStops<E>(d: Dictionary, embeddingsIndex: map<string, seq<E>>,
                                                  embeddingDim: nat, fallback: seq<seq<E>>, k: nat, n: nat)
    requires k <= n <= |d.idx2word| && n <= |fallback|
    requires PretrainedTable(d, embeddingsIndex, embeddingDim, fallback, k).Err?
    ensures PretrainedTable(d, embeddingsIndex, embeddingDim, fallback, n)
         == PretrainedTable(d, embeddingsIndex, embeddingDim, fallback, k)
  {
    if k < n {
      PretrainedTableStops(d, embeddingsIndex, embeddingDim, fallback, k, n - 1);
    }
  }

  /** What `init_embedding_weights` raises, if anything: the first row that cannot
      be assigned, else a table whose shape differs from the embedding's. */
  function InitEmbeddingOutcome<E>(architecture: Architecture, d: Dictionary, embeddingsIndex: map<string, seq<E>>,
                                   embeddingDim: nat, fallback: seq<seq<E>>): Outcome<Error>
    requires |fallback| == |d.idx2word|
  {
    match PretrainedTable(d, embeddingsIndex, embeddingDim, fallback, |d.idx2word|)
    case Err(e) => Fail(e)
    case Ok(_) =>
      if |d.idx2word| != architecture.vocabSize || embeddingDim != architecture.embeddingDim
      then Fail(CopyShapeMismatch) else Pass
  }

  /** A decoder module; its embedding table is the state `init_embedding_weights`
      overwrites. */
  class Decoder<E> {
    const architecture: Architecture
    /** `self.embedding.weight`: one row of `embeddingDim` entries per vocabulary index. */
    var embedding: seq<seq<E>>

    ghost predicate Valid()
      reads this
    {
      && |embedding| == architecture.vocabSize
      && forall i :: 0 <= i < |embedding| ==> |embedding[i]| == architecture.embeddingDim
    }

    /** A decoder of a validated architecture; `initialEmbedding` stands for the
        random initial weights of `nn.Embedding`. */
    constructor (architecture: Architecture, initialEmbedding: seq<seq<E>>)
      requires |initialEmbedding| == architecture.vocabSize
      requires forall i :: 0 <= i < |initialEmbedding| ==> |initialEmbedding[i]| == architecture.embeddingDim
      ensures Valid()
      ensures this.architecture == architecture && embedding == initialEmbedding
    {
      this.architecture := architecture;
      embedding := initialEmbedding;
    }

    /** The constructor of `variant`: it raises for a dropout rate outside [0, 1],
        a zero hidden size of a Xavier-initialised weight, or an unsupported model
        name, and otherwise builds the layers `Configure` describes. */
    static method Create(variant: Variant, inputSize: nat, config: Config, maxSentLength: nat,
                         initialEmbedding: seq<seq<E>>) returns (r: Result<Decoder<E>, Error>)
      requires |initialEmbedding| == inputSize
      requires forall i :: 0 <= i < |initialEmbedding| ==> |initialEmbedding[i]| == config.emsize
      ensures r.Ok? <==> Accepted(variant, config)
      ensures r.Err? ==> r.error == RejectionOf(variant, config)
      ensures r.Ok? ==>
        && fresh(r.value) && r.value.Valid() && r.value.embedding == initialEmbedding
        && Configure(variant, inputSize, config, maxSentLength) == Ok(r.value.architecture)
    {
      ConfigureAcceptsSameNames(variant, variant, inputSize, config, maxSentLength);
      match Configure(variant, inputSize, config, maxSentLength)
      case Err(e) =>
        r := Err(e);
      case Ok(architecture) =>
        var decoder := new Decoder(architecture, initialEmbedding);
        r := Ok(decoder);
    }

    /** `init_embedding_weights(dictionary, embeddings_index, embedding_dim)`: fills
        `pretrained_weight` row by row and copies it into the embedding. `fallback[i]`
        is the vector `initialize_out_of_vocab_words` draws when row `i` is not in
        the index. On any error the embedding is left as it was; on success it is
        the table, whatever it held before. */
    method InitEmbeddingWeights(d: Dictionary, embeddingsIndex: map<string, seq<E>>, embeddingDim: nat,
                                fallback: seq<seq<E>>) returns (outcome: Outcome<Error>)
      requires Valid()
      requires |fallback| == |d.idx2word|
      requires forall i :: 0 <= i < |fallback| ==> |fallback[i]| == embeddingDim
      modifies this
      ensures Valid()
      ensures outcome == InitEmbeddingOutcome(architecture, d, embeddingsIndex, embeddingDim, fallback)
      ensures outcome.Pass? ==>
        Ok(embedding) == PretrainedTable(d, embeddingsIndex, embeddingDim, fallback, |d.idx2word|)
      ensures outcome.Fail? ==> embedding == old(embedding)
    {
      var n := |d.idx2word|;
      var pretrained := new seq<E>[n];
      var i := 0;
      while i < n
        invariant i <= n
        invariant unchanged(this)
        invariant PretrainedTable(d, embeddingsIndex, embeddingDim, fallback, i) == Ok(pretrained[..i])
      {
        var word := d.idx2word[i];
        var row := if word in embeddingsIndex then BroadcastRow(embeddingsIndex[word], embeddingDim) else Ok(fallback[i]);
        if row.Err? {
          PretrainedTableStops(d, embeddingsIndex, embeddingDim, fallback, i + 1, n);
          return Fail(row.error);
        }
        pretrained[i] := row.value;
        assert pretrained[..i + 1] == pretrained[..i] + [row.value];
        i := i + 1;
      }
      assert pretrained[..i] == pretrained[..];
      if n != architecture.vocabSize || embeddingDim != architecture.embeddingDim {
        return Fail(CopyShapeMismatch);
      }
      PretrainedTableSpec(d, embeddingsIndex, embeddingDim, fallback, n);
      embedding := pretrained[..];
      return Pass;
    }
  }
}
