# Query-suggestion decoder: tensor helpers and decoder construction

This project models the discrete parts of the decoding side of a
sequence-to-sequence query-suggestion network, and proves properties of them in Dafny.

- `helper.dfy` (module `Helper`) covers the helpers that turn data into index
  tensors and masks:
  - `batchify` cuts a list into full batches.
  - `sentence_to_tensor` maps words to vocabulary indices. A word missing from
    the vocabulary gets the unknown token's index, and the tensor is zero-padded
    to `max_sent_length`.
  - `instances_to_tensors` and `queries_to_tensors` build one row per instance.
    The latter pads to the longest sentences and records `len(sentence2) - 1`.
  - `sequence_mask` and `mask` build "position < length" masks.
  - `convert_to_minutes` renders a number of seconds as `'<m>m <s>s'`.
- `decoder.dfy` (module `Decoders`) covers what the four decoder constructors
  (`Decoder`, `AttentionDecoder`, `GloballyAttentiveDecoder`,
  `LocallyAttentiveDecoder`) decide:
  - The `--model` name selects the recurrent cell, and any other name raises `ValueError`.
  - Each constructor builds layers of fixed shapes.
  - `init_embedding_weights` fills the embedding table from pretrained vectors,
    with a random fallback vector for words the pretrained index lacks.
- `common.dfy` holds `Option`, `Result` and `Outcome`, plus an `Error`
  type with one constructor per cause of an exception the modelled code can raise.

Exceptions are modelled as `Err`/`Fail` values instead of preconditions:
- `KeyError` when the unknown token itself is missing from `word2idx`;
- `IndexError` when a sentence is longer than the tensor;
- `ZeroDivisionError` for a zero batch size, and for the Xavier initialisation of
  an `nhid × nhid` weight when `nhid` is 0;
- `ValueError` for a dropout rate outside [0, 1], a bad model name, or a pretrained vector that numpy cannot
  broadcast into a row;
- torch's `RuntimeError` for `max()` of an empty length tensor, or for a table
  whose shape differs from the embedding's.

The helper loops that fill tensors in place are methods over Dafny arrays.
Each is proved against a reference function, and the properties the code
promises are proved as lemmas about that function. `queries_to_tensors` is
split in two: its first loop, the running maxima, is the method
`LongestSentences`, which `QueriesToTensors` calls before its row-filling loop. The four
identical copies of `init_embedding_weights` (decoder.py lines 58-67,
121-130, 189-198, 274-283) are modelled once, as `Decoder.InitEmbeddingWeights`.
The four constructors are modelled as one `Configure` function over a `Variant` tag.

Two behaviours of the code are worth stating outright:
- `sentence_to_tensor` raises `KeyError` when it meets an out-of-vocabulary word
  and the unknown token is itself missing from `word2idx`.
- Every constructor creates `nn.Dropout(config.dropout)` before it looks at the
  model name, so a dropout rate outside [0, 1] raises `ValueError` first. The
  globally and locally attentive constructors then run `init.xavier_normal` on
  their `nhid × nhid` weight, which divides by `2 * nhid` and so raises
  `ZeroDivisionError` when `nhid` is 0, whatever the model name. The decoder code
  itself does not check the layer count.

## Model

| member | source | states |
|---|---|---|
| `Helper.BatchifyShape` | seq_to_seq_model/helper.py:140-147 | For a positive batch size there are exactly `len(data) // bsz` batches of exactly `bsz` items, and item `j` of batch `i` is `data[bsz*i + j]` |
| `Helper.BatchifyErrors` | seq_to_seq_model/helper.py:142 | Batchify fails exactly when `bsz == 0`, with `ZeroDivisionError`; a negative `bsz` yields no batch |
| `Helper.BatchifyFlatten` | seq_to_seq_model/helper.py:142-146 | The batches laid end to end are a prefix of `data` of length `bsz * (len(data) // bsz)`, so only the remainder is dropped, and it has fewer than `bsz` items |
| `Helper.FlattenBatchesPrefix` | seq_to_seq_model/helper.py:144-146 | The first `k` batches laid end to end are the first `bsz * k` items of `data` |
| `Helper.MaxLength` | seq_to_seq_model/helper.py:117-118 | The default `max_len` is a length in the batch and no length exceeds it |
| `Helper.SequenceMaskSpec` | seq_to_seq_model/helper.py:116-127 | The mask has one row per batch element and `max_len` columns (the largest length when `max_len` is omitted), and entry `[b][t]` is true exactly when `t < sequence_length[b]`; only an omitted `max_len` over an empty batch fails |
| `Helper.SequenceMaskColumns` | seq_to_seq_model/helper.py:116-137 | Column `t` of `sequence_mask` equals `mask(sequence_length, t)`, entry by entry |
| `Helper.SequenceMaskRowCounts` | seq_to_seq_model/helper.py:116-127 | Row `b` holds exactly `sequence_length[b]` true entries, clipped to the grid width; without `max_len` some row is entirely true |
| `Helper.CountLengthRow` | seq_to_seq_model/helper.py:120-127 | A row comparing positions `0..w-1` against a length `len` has `min(max(len, 0), w)` true entries |
| `Helper.SplitMinutes` | seq_to_seq_model/helper.py:158-161 | The minutes and leftover seconds give back the input (`60*m + s`), and the leftover lies in [0, 60) |
| `Helper.SplitMinutesUnique` | seq_to_seq_model/helper.py:160-161 | That split is the only one with a leftover in [0, 60), so `m` is the floor of `s / 60` |
| `Helper.ConvertToMinutesRoundTrip` | seq_to_seq_model/helper.py:158-162 | Reading the rendered `'%dm %ds'` text back yields the minutes and seconds of the split, and hence the original number of seconds |
| `Helper.NatToDecimalRoundTrip` | seq_to_seq_model/helper.py:162 | The `%d` rendering of a non-negative number reads back as that number |
| `Helper.IntToDecimalRoundTrip` | seq_to_seq_model/helper.py:162 | The `%d` rendering of any integer, with its minus sign, reads back as that integer |
| `Helper.WriteFromSpec` | seq_to_seq_model/helper.py:201-206 | From position `i` on, the write loop succeeds exactly when every remaining word has an index and the sentence fits. It writes word `k`'s index at `k`, leaves other entries unchanged, and otherwise raises a `KeyError` on the unknown token before any `IndexError` at the tensor's length |
| `Helper.EncodeSentenceSpec` | seq_to_seq_model/helper.py:198-207 | The tensor has `max_sent_length` entries; entry `i < len(sentence)` is the word's index, or the unknown token's when the word is missing; every later entry is 0; it fails exactly when the sentence is too long (`IndexError` at `max_sent_length`) or the unknown token is needed but missing (`KeyError`) |
| `Helper.SentenceToTensor` | seq_to_seq_model/helper.py:198-207 | The loop over a zeroed array returns exactly the reference result of `sentence_to_tensor`, errors included |
| `Helper.EncodeFittingSentence` | seq_to_seq_model/helper.py:229-234 | A sentence no longer than the tensor fails only when the unknown token is needed but missing, with a `KeyError` |
| `Helper.InstancesToTensors` | seq_to_seq_model/helper.py:210-217 | It succeeds exactly when every sentence of every instance converts. Row `i` of each output is `sentence_to_tensor` of instance `i`'s sentence. Otherwise the error is that of the first failing sentence, in instance order, sentence1 before sentence2 |
| `Helper.Longest` | seq_to_seq_model/helper.py:221-227 | The running maximum, starting from 0, bounds every sentence length |
| `Helper.LongestAttained` | seq_to_seq_model/helper.py:221-227 | The running maximum is 0 or the length of some sentence |
| `Helper.LongestSentences` | seq_to_seq_model/helper.py:221-227 | The loop computes the running maxima of the first and second sentence lengths |
| `Helper.QueriesToTensors` | seq_to_seq_model/helper.py:220-236 | The rows are `sentence_to_tensor` of each sentence at the longest first and second lengths. `length[i] = len(sentence2) - 1`. It fails exactly when some word has no index, and then only with a `KeyError` |
| `Decoders.SelectCellAccepts` | seq_to_seq_model/decoder.py:29-37 | A model name is accepted exactly when it is one of `LSTM`, `GRU`, `RNN_TANH`, `RNN_RELU`; any other raises `ValueError` |
| `Decoders.SelectCellChoices` | seq_to_seq_model/decoder.py:29-34 | `LSTM` and `GRU` select the gated cell of that name, `RNN_TANH` a plain RNN with tanh, `RNN_RELU` one with relu |
| `Decoders.SelectCellRoundTrip` | seq_to_seq_model/decoder.py:29-34 | Each cell is selected by exactly its own name, and an accepted name names the cell it selects |
| `Decoders.ConfigureAcceptsSameNames` | seq_to_seq_model/decoder.py:137-160 | A decoder constructor accepts a configuration exactly when its dropout rate is in [0, 1], its `nhid` is positive for the two Xavier-initialised decoders, and its model name is one of the four. Any other raises the first failing check's error: the dropout `ValueError`, then `ZeroDivisionError`, then the model-name `ValueError`. For a positive `nhid` all four decoders accept the same configurations and raise the same `ValueError` |
| `Decoders.ConfigureRecurrent` | seq_to_seq_model/decoder.py:137-162 | An accepted configuration (valid dropout rate, model name and, for the Xavier-initialised decoders, a positive `nhid`) builds the named cell with `nhid` units, `nlayers` layers and the configured dropout. Its input width is `emsize + nhid` for the globally attentive decoder and `emsize` for the others. The embedding is `input_size × emsize` and the output layer maps `nhid` to `input_size` |
| `Decoders.ConfigureAttention` | seq_to_seq_model/decoder.py:73-222 | For an accepted configuration, only the attentive decoders have attention parameters: the learned-position layer exactly for the attention decoder, the bilinear weight alone exactly for the globally attentive one, the windowed parameters exactly for the locally attentive one. Each has a `2*nhid → nhid` combination layer. The attention decoder scores `max_sent_length` positions. The bilinear weight and `weight_p` are `nhid × nhid`, and the local decoder adds a `1 × nhid` vector and a window of 3 |
| `Decoders.PretrainedTableSpec` | seq_to_seq_model/decoder.py:58-65 | The table has `len(dictionary)` rows of `embedding_dim` entries. Row `i` is the pretrained vector of word `i` when the index holds it (a one-entry vector broadcast), else the fallback vector. The fill fails exactly when some row cannot be assigned, with the first such row's error |
| `Decoders.PretrainedRowsCopied` | seq_to_seq_model/decoder.py:62-63 | A pretrained vector of the row's width is copied into the row unchanged |
| `Decoders.InVocabularyRowsDeterministic` | seq_to_seq_model/decoder.py:61-65 | Whatever the random draws, the fill succeeds or fails alike and the rows of words in the pretrained index are identical |
| `Decoders.PretrainedTableStops` | seq_to_seq_model/decoder.py:61-65 | Once one row fails, the whole fill fails with that row's error |
| `Decoders.Decoder.constructor` | seq_to_seq_model/decoder.py:20-27 | A decoder holds its architecture and an embedding of `vocab × emsize` entries |
| `Decoders.Decoder.Create` | seq_to_seq_model/decoder.py:20-39 | Construction succeeds exactly for a dropout rate in [0, 1], a positive `nhid` where a Xavier-initialised weight needs one, and one of the four model names. Otherwise it raises the dropout rate's `ValueError`, then `ZeroDivisionError`, then the model name's `ValueError`. On success it yields a fresh decoder with the architecture `Configure` describes |
| `Decoders.Decoder.InitEmbeddingWeights` | seq_to_seq_model/decoder.py:58-67 | The row-by-row fill of `pretrained_weight` followed by `copy_`. On success the embedding is the pretrained table, whatever it held before. A bad row or a table of the wrong shape raises and leaves the embedding unchanged |

## Left out

- The `forward` methods of all four decoders are not modelled. This covers the embedding lookup, dropout, the recurrent step, the learned-position, bilinear and Gaussian-window attention, and `softmax`/`log_softmax`: they are floating-point tensor numerics computed by torch.
- The `init_weights` methods are not modelled: every call raises `AttributeError` at `self.rnn_type` (decoder.py lines 52, 115, 183, 268), an attribute no constructor sets. The lines after it read further unset attributes (`nlayers` and `nhid` in the first copy, `n_layers` and `hidden_size` in the others).
- Random initialisation is an input, not modelled. This covers `nn.Embedding`'s initial weights (the constructor's `initialEmbedding`), Xavier-normal initialisation of the attention matrices, and `initialize_out_of_vocab_words` (the `fallback` rows of `InitEmbeddingWeights`). Row `i`'s fallback vector stands for the draw made when row `i` is out of vocabulary; the order in which a random stream would be consumed is not modelled.
- Decoders.Decoder.InitEmbeddingWeights: a `copy_` from a table that differs in shape from the embedding is modelled as an error. torch's broadcasting copy from a one-row or one-column table is not modelled.
- Helper.SequenceMaskSpec: when `max_len` is zero or negative, `torch.range(0, max_len - 1)` is taken as an empty range, so the mask has no columns. torch's own behaviour for an inverted range is not modelled.
- Helper.SplitMinutes: the model divides exactly. The source's `math.floor(s / 60)` is a float division, which rounds once `|s|` reaches about 60·2^48 (at `s = 60·2^50 - 1` it gives a leftover of -1), and raises `OverflowError` past about 60·1.8e308. No realistic elapsed time is affected.
- Helper.ConvertToMinutesRoundTrip: only whole seconds are modelled. The float elapsed times `show_progress` passes are not, and for those `%d` truncates the leftover seconds.
- Torch's 64-bit `LongTensor` entries are unbounded integers here, and `max_sent_length` is a natural number: a negative tensor size is not modelled.
- Decoders.ConfigureAcceptsSameNames, Decoders.ConfigureRecurrent, Decoders.ConfigureAttention, Decoders.Decoder.Create: the size checks that later torch releases add to `nn.LSTM`, `nn.GRU` and `nn.RNN` (`ValueError` for a hidden size or layer count of 0) are not modelled. The decoders are written against an early torch API (`init.xavier_normal`, `Variable`), so which checks apply depends on the torch release.
- The `Dictionary` class is not part of this model. It is taken to be a `word2idx` map, an `idx2word` list and an `unknown_token`, with `len(dictionary) == len(idx2word)`.
- `normalize_word_embedding`, `load_word_embeddings`, `save_word_embeddings`, checkpoint and object save/load, and the plotting functions are not modelled: they do float norms, file I/O, pickling and plotting.
- `tokenize_and_normalize` is not modelled: it calls nltk's `wordpunct_tokenize`, which is not part of this model.
- `repackage_hidden` (autograd plumbing) and `show_progress` (wall clock) are not modelled.
- The `Variable` wrapping and the `.cuda()` device moves in the helpers have no effect on values and are not modelled.
