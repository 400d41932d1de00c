/** The stateful decoders of lib/tokenizers/src/lib.rs, proved against Streaming.dfy,
    TokenSequence.dfy and StopDecoder.dfy. */
module Detokenizers {
  import opened Utf8
  import CodePoints
  import opened ByteDecoder
  import Streaming
  import TokenSequence
  import StopDecoder

  class DecodeStream {
    const tokenizer: Tokenizer
    const skipSpecialTokens: bool
    var allTokenIds: seq<TokenId>
    var prefixOffset: nat
    var readOffset: nat

    ghost predicate Valid()
      reads this
    {
      prefixOffset <= readOffset <= |allTokenIds|
    }

    ghost function View(): Streaming.Stream
      reads this
    {
      Streaming.Stream(allTokenIds, prefixOffset, readOffset)
    }

    constructor (tokenizer: Tokenizer, prompt: seq<TokenId>, skipSpecialTokens: bool)
      ensures Valid() && View() == Streaming.Started(prompt)
      ensures this.tokenizer == tokenizer && this.skipSpecialTokens == skipSpecialTokens
    {
      this.tokenizer, this.skipSpecialTokens := tokenizer, skipSpecialTokens;
      allTokenIds := prompt;
      prefixOffset := if |prompt| < Streaming.INITIAL_OFFSET then 0 else |prompt| - Streaming.INITIAL_OFFSET;
      readOffset := |prompt|;
    }

    /** Returns a chunk when one is complete; `Panic` where the source slices inside a character. */
    method Step(id: TokenId) returns (r: Streaming.StepResult)
      requires Valid()
      modifies this`allTokenIds, this`prefixOffset, this`readOffset
      ensures Valid()
      ensures (View(), r) == Streaming.Step(tokenizer, skipSpecialTokens, old(View()), id)
      // With a window that leaves no character unfinished, the chunk is the text of the pending bytes.
      ensures Clean(Streaming.Window(tokenizer, skipSpecialTokens, old(View()))) ==>
                && !r.Panic? && Clean(Streaming.Window(tokenizer, skipSpecialTokens, View()))
                && (r.Chunk? ==> r.text == Lossy(Bytes(tokenizer, old(allTokenIds)[old(readOffset)..] + [id], skipSpecialTokens)))
    {
      hide Decode, Bytes, Lossy, Clean, IsBoundary;
      ghost var s := View();
      ghost var pending := allTokenIds[readOffset..];
      allTokenIds := allTokenIds + [id];
      var prefixText := Decode(tokenizer, allTokenIds[prefixOffset..readOffset], skipSpecialTokens).text;
      var newResult := Decode(tokenizer, allTokenIds[prefixOffset..], skipSpecialTokens);
      if |newResult.text| > |prefixText| && !newResult.Partial? {
        if IsBoundary(newResult.text, |prefixText|) {
          r := Streaming.Chunk(newResult.text[|prefixText|..]);
          prefixOffset, readOffset := readOffset, |allTokenIds|;
        } else {
          r := Streaming.Panic;
        }
      } else {
        r := Streaming.NoChunk;
      }
      if Clean(Streaming.Window(tokenizer, skipSpecialTokens, s)) {
        Streaming.StepOnCleanWindow(tokenizer, skipSpecialTokens, s, id);
        BytesConcat(tokenizer, pending, [id], skipSpecialTokens);
      }
    }
  }

  class Sequence {
    const tokenizer: Tokenizer
    var tokenIds: seq<TokenId>
    var prefixOffset: nat
    var readOffset: nat

    ghost predicate Valid()
      reads this
    {
      prefixOffset <= readOffset <= |tokenIds|
    }

    ghost function View(): Streaming.Stream
      reads this
    {
      Streaming.Stream(tokenIds, prefixOffset, readOffset)
    }

    constructor (tokenizer: Tokenizer)
      ensures Valid() && View() == TokenSequence.EMPTY && this.tokenizer == tokenizer
    {
      this.tokenizer := tokenizer;
      tokenIds, prefixOffset, readOffset := [], 0, 0;
    }

    method Clear()
      modifies this
      ensures Valid() && View() == TokenSequence.EMPTY
    {
      tokenIds, prefixOffset, readOffset := [], 0, 0;
    }

    method AppendTokenId(id: TokenId) returns (text: seq<byte>)
      requires Valid()
      modifies this`tokenIds, this`prefixOffset, this`readOffset
      ensures Valid()
      ensures (View(), text) == TokenSequence.Append(tokenizer, old(View()), id)
      // With a window that leaves no character unfinished, the text is that of the pending bytes, character
      // by character and without U+FFFD.
      ensures Clean(Streaming.Window(tokenizer, false, old(View()))) && readOffset == |tokenIds| ==>
                var decoding := Lossy(Bytes(tokenizer, old(tokenIds)[old(readOffset)..] + [id], false));
                && Utf8.Valid(decoding) && Utf8.Valid(text)
                && CodePoints.Decoded(text) == CodePoints.Without(CodePoints.Decoded(decoding), 0xFFFD)
    {
      hide Decode, Stripped, IsBoundary, Clean, Lossy, Utf8.Valid, Bytes;
      TokenSequence.AppendReturnsCharacters(tokenizer, View(), id);
      tokenIds := tokenIds + [id];
      var prefixText := Decode(tokenizer, tokenIds[prefixOffset..readOffset], false).text;
      var newResult := Decode(tokenizer, tokenIds[prefixOffset..], false);
      var prefixTextLen := TokenSequence.FindBoundary(newResult.text, |prefixText|);
      text := [];
      if |newResult.text| > |prefixText| {
        if newResult.Partial? {
          return;
        }
        text := Stripped(newResult.text[prefixTextLen..]);
        prefixOffset, readOffset := readOffset, |tokenIds|;
      }
    }
  }

  class StopSequenceDecoder {
    const sequence: Sequence
    const stopTokenIdsVisible: seq<TokenId>
    const stopTokenIdsHidden: seq<TokenId>
    const stopSequencesHidden: seq<seq<byte>>
    var stopped: bool
    var state: seq<byte>

    ghost function Rules(): StopDecoder.StopRules {
      StopDecoder.StopRules(stopTokenIdsVisible, stopTokenIdsHidden, stopSequencesHidden)
    }

    ghost function View(): StopDecoder.StopState
      reads this
    {
      StopDecoder.StopState(state, stopped)
    }

    constructor (tokenizer: Tokenizer, visible: seq<TokenId>, hidden: seq<TokenId>, sequencesHidden: seq<seq<byte>>)
      ensures fresh(sequence) && sequence.Valid() && sequence.View() == TokenSequence.EMPTY
      ensures sequence.tokenizer == tokenizer && Rules() == StopDecoder.StopRules(visible, hidden, sequencesHidden)
      ensures View() == StopDecoder.StopState([], false)
    {
      var s := new Sequence(tokenizer);
      sequence := s;
      stopTokenIdsVisible, stopTokenIdsHidden, stopSequencesHidden := visible, hidden, sequencesHidden;
      stopped, state := false, [];
    }

    /** After a stop the decoder only reports an error and changes nothing. */
    method AppendTokenId(id: TokenId) returns (output: StopDecoder.Output)
      requires sequence.Valid()
      modifies this`stopped, this`state, sequence
      ensures sequence.Valid()
      ensures old(stopped) <==> output.Refused?
      ensures old(stopped) ==> View() == old(View()) && sequence.View() == old(sequence.View())
      ensures !old(stopped) ==>
                && sequence.View() == TokenSequence.Append(sequence.tokenizer, old(sequence.View()), id).0
                && (View(), output) == StopDecoder.Accept(Rules(), old(View()), id,
                                                          TokenSequence.Append(sequence.tokenizer, old(sequence.View()), id).1)
      // What the caller is told, by the token and by all the text held so far.
      ensures !old(stopped) ==>
                var all := old(state) + TokenSequence.Append(sequence.tokenizer, old(sequence.View()), id).1;
                var stopId := StopDecoder.IsStopId(Rules(), id);
                && (stopped <==> output.Stopped? || output.StoppedWithText?)
                && (output.StoppedWithText? <==> id in stopTokenIdsVisible && id !in stopTokenIdsHidden)
                && (output.Text? <==> !stopId && !StopDecoder.Begins(stopSequencesHidden, all))
                && (output.Held? <==> !stopId && StopDecoder.Begins(stopSequencesHidden, all)
                                      && !StopDecoder.Wins(stopSequencesHidden, all))
                && (output.Text? || output.StoppedWithText? ==> output.text == all)
    {
      hide TokenSequence.Append;
      if stopped {
        return StopDecoder.Refused;
      }
      var text := sequence.AppendTokenId(id);
      state := state + text;
      var stop, visible := false, false;
      if id in stopTokenIdsVisible {
        stop, visible := true, true;
      }
      if id in stopTokenIdsHidden {
        stop, visible := true, false;
      }
      if stop {
        stopped := true;
        output := if visible then StopDecoder.StoppedWithText(state) else StopDecoder.Stopped;
        state := [];
        return;
      }
      for i := 0 to |stopSequencesHidden|
        invariant StopDecoder.Judge(stopSequencesHidden[i..], state) == StopDecoder.Judge(stopSequencesHidden, state)
        invariant !stopped && state == old(state) + text
      {
        assert stopSequencesHidden[i..][1..] == stopSequencesHidden[i + 1..];
        if state <= stopSequencesHidden[i] {
          if stopSequencesHidden[i] == state {
            stopped := true;
            return StopDecoder.Stopped;
          } else {
            return StopDecoder.Held;
          }
        }
      }
      output := StopDecoder.Text(state);
      state := [];
    }
  }
}
