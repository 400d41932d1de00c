/** Decoding token ids to text with a byte vocabulary (lib/tokenizers/src/tiktoken.rs, `decode`,
    and `DecodeResult` in lib/tokenizers/src/lib.rs).  Every token id stands for fixed bytes. */
module ByteDecoder {
  import opened Utf8

  type TokenId = nat

  datatype DecodeResult = Complete(text: seq<byte>) | Partial(text: seq<byte>)

  datatype Tokenizer = Tokenizer(vocabulary: TokenId -> seq<byte>, special: set<TokenId>)

  function FromDecoded(text: seq<byte>): DecodeResult {
    if EndsWithReplacement(text) then Partial(text) else Complete(text)
  }

  function Filtered(special: set<TokenId>, ids: seq<TokenId>): seq<TokenId> {
    if ids == [] then []
    else (if ids[0] in special then [] else [ids[0]]) + Filtered(special, ids[1..])
  }

  function Flattened(tk: Tokenizer, ids: seq<TokenId>): seq<byte> {
    if ids == [] then [] else tk.vocabulary(ids[0]) + Flattened(tk, ids[1..])
  }

  function Bytes(tk: Tokenizer, ids: seq<TokenId>, skip: bool): seq<byte> {
    Flattened(tk, if skip then Filtered(tk.special, ids) else ids)
  }

  /** Strict UTF-8 first; otherwise the lossy text, partial when it ends in U+FFFD. */
  function Decode(tk: Tokenizer, ids: seq<TokenId>, skip: bool): DecodeResult {
    var bytes := Bytes(tk, ids, skip);
    if Valid(bytes) then Complete(bytes) else FromDecoded(Lossy(bytes))
  }

  lemma {:induction false} FlattenedConcat(tk: Tokenizer, x: seq<TokenId>, y: seq<TokenId>)
    ensures Flattened(tk, x + y) == Flattened(tk, x) + Flattened(tk, y)
  {
    if x == [] {
      assert x + y == y;
    } else {
      assert (x + y)[1..] == x[1..] + y;
      FlattenedConcat(tk, x[1..], y);
    }
  }

  lemma {:induction false} FilteredConcat(special: set<TokenId>, x: seq<TokenId>, y: seq<TokenId>)
    ensures Filtered(special, x + y) == Filtered(special, x) + Filtered(special, y)
  {
    if x == [] {
      assert x + y == y;
    } else {
      assert (x + y)[1..] == x[1..] + y;
      FilteredConcat(special, x[1..], y);
    }
  }

  /** Skipping drops every special token, each time it occurs, and nothing else. */
  lemma {:induction false} FilteredDropsSpecial(special: set<TokenId>, ids: seq<TokenId>, id: TokenId)
    ensures multiset(Filtered(special, ids))[id] == if id in special then 0 else multiset(ids)[id]
  {
    if ids != [] {
      assert ids == [ids[0]] + ids[1..];
      FilteredDropsSpecial(special, ids[1..], id);
    }
  }

  lemma BytesConcat(tk: Tokenizer, x: seq<TokenId>, y: seq<TokenId>, skip: bool)
    ensures Bytes(tk, x + y, skip) == Bytes(tk, x, skip) + Bytes(tk, y, skip)
  {
    FilteredConcat(tk.special, x, y);
    FlattenedConcat(tk, if skip then Filtered(tk.special, x) else x, if skip then Filtered(tk.special, y) else y);
  }

  /** One token stands for its bytes, or for none if it is special and special tokens are skipped. */
  lemma BytesOfOne(tk: Tokenizer, id: TokenId, skip: bool)
    ensures Bytes(tk, [id], skip) == if skip && id in tk.special then [] else tk.vocabulary(id)
  {
    assert Filtered(tk.special, [id][1..]) == [];
    var kept := if skip && id in tk.special then [] else [id];
    assert (if skip then Filtered(tk.special, [id]) else [id]) == kept;
    if kept != [] {
      assert Flattened(tk, kept[1..]) == [];
      assert tk.vocabulary(id) + [] == tk.vocabulary(id);
    }
  }

  /** The text is always the lossy decoding; only text that leaves no character unfinished is complete. */
  lemma DecodeText(tk: Tokenizer, ids: seq<TokenId>, skip: bool)
    ensures var r, bytes := Decode(tk, ids, skip), Bytes(tk, ids, skip);
            && r.text == Lossy(bytes)
            && Valid(r.text)
            && (r.Complete? ==> Clean(bytes))
            && (r.Complete? <==> Valid(bytes) || !EndsWithReplacement(Lossy(bytes)))
  {
    var bytes := Bytes(tk, ids, skip);
    LossyIsValid(bytes);
    if Valid(bytes) {
      ValidIsClean(bytes);
    } else if !Clean(bytes) {
      UnfinishedShows(bytes);
    }
  }
}
