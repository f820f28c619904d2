/**
 The PTY session object: fields updated in place by the read loop and by connecting and
 disconnecting subscribers. Every method is proved to do what PtyStream says of it.
 */
module PtySession {
  import opened Utf8
  import opened Utf16
  import opened PtyDecoder
  import opened PtyReplay
  import Stream = PtyStream

  class Session {
    var buffer: seq<Unit>
    var bufCur: nat
    var cursor: nat
    var partial: Text
    /** The registered subscribers. */
    var subs: set<nat>
    var nextSub: nat
    var exited: bool
    /** Every channel ever made, by the key of its subscriber. */
    var links: map<nat, Stream.Link>
    /** History: every raw read. */
    ghost var chunks: seq<Text>

    /** The registered channels are the open ones, so none is closed twice or sent to after it was closed. */
    ghost predicate Valid()
      reads this
    {
      && subs <= links.Keys
      && forall k | k in links :: k < nextSub && (links[k].closed <==> k !in subs)
    }

    ghost function View(): Stream.State
      reads this
    {
      Stream.State(buffer, bufCur, cursor, partial, subs, nextSub, exited, links, chunks)
    }

    constructor ()
      ensures Valid() && View() == Stream.START
    {
      buffer, bufCur, cursor, partial := [], 0, 0, [];
      subs, nextSub, exited, links := {}, 0, false, map[];
      chunks := [];
    }

    /** Sends the text to one subscriber, or cuts it off if its queue is full. */
    method SendTo(key: nat, text: Text)
      requires Valid() && key in subs
      modifies this`subs, this`links
      ensures Valid()
      ensures links == old(links)[key := Stream.Offer(old(links)[key], text)]
      ensures subs == if |old(links)[key].queue| < Stream.SUB_BUFFER then old(subs) else old(subs) - {key}
    {
      var ch := links[key];
      assert !ch.closed;
      if |ch.queue| < Stream.SUB_BUFFER {
        links := links[key := ch.(queue := ch.queue + [text])];
      } else {
        subs := subs - {key};
        links := links[key := ch.(closed := true)];
      }
    }

    method Fanout(text: Text)
      requires Valid()
      modifies this`subs, this`links
      ensures Valid()
      ensures links == Stream.Fanout(old(links), old(subs), text)
      ensures subs == Stream.Kept(old(links), old(subs))
    {
      hide Stream.Offer, Stream.Fanout, Stream.Kept;
      var todo := subs;
      FanoutNone(links, text);
      assert subs - todo == {};
      while todo != {}
        invariant Valid()
        invariant todo <= subs <= old(subs)
        invariant links == Stream.Fanout(old(links), old(subs) - todo, text)
        invariant subs == todo + Stream.Kept(old(links), old(subs) - todo)
        decreases todo
      {
        var key :| key in todo;
        ghost var done := old(subs) - todo;
        FanoutMore(old(links), done, key, text);
        SendTo(key, text);
        todo := todo - {key};
        assert old(subs) - todo == done + {key};
      }
      assert old(subs) - todo == old(subs);
    }

    method OnData(raw: Text)
      requires Valid()
      modifies this
      ensures Valid() && View() == Stream.OnData(old(View()), raw)
    {
      hide Decode, Units, SplitValid, Stream.Fanout, Stream.Kept, Stream.Trim;
      var data := raw;
      if |partial| > 0 {
        data := partial + raw;
        partial := [];
      }
      assert data == old(partial) + raw;
      chunks := chunks + [raw];
      var split := SplitValid(data);
      if |split.rest| > 0 {
        partial := split.rest;
      }
      if split.text == [] {
        return;
      }
      var units := Units(Decode(split.text));
      cursor := cursor + |units|;
      Fanout(split.text);
      Append(units);
    }

    /** Appends to the buffer and trims it to its limit from the front. */
    method Append(units: seq<Unit>)
      modifies this`buffer, this`bufCur
      ensures buffer == Stream.Trim(old(buffer) + units).0
      ensures bufCur == old(bufCur) + Stream.Trim(old(buffer) + units).1
    {
      buffer := buffer + units;
      if |buffer| > Stream.BUFFER_LIMIT {
        var excess := |buffer| - Stream.BUFFER_LIMIT;
        buffer := buffer[excess..];
        bufCur := bufCur + excess;
      }
    }

    method OnExit()
      requires Valid()
      modifies this
      ensures Valid() && View() == Stream.OnExit(old(View()))
    {
      if exited {
        return;
      }
      exited := true;
      while subs != {}
        invariant Valid() && subs <= old(subs) && links.Keys == old(links).Keys
        invariant View() == old(View()).(exited := true, subs := subs, links := links)
        invariant forall k | k in links ::
                    links[k] == if k in old(subs) - subs then old(links)[k].(closed := true) else old(links)[k]
        decreases subs
      {
        var key :| key in subs;
        assert !links[key].closed;
        subs := subs - {key};
        links := links[key := links[key].(closed := true)];
      }
    }

    /**
     Registers a subscriber and returns what to send it first. The frames are the chunks of
     the units the client is behind, then the current cursor.
     */
    method Connect(asked: int) returns (initial: seq<Frame>, key: nat)
      requires Valid()
      modifies this
      ensures Valid() && View() == Stream.Connect(old(View()), asked)
      ensures key == old(nextSub) && key in subs
      ensures initial == Outputs(ChunkTexts(Stream.Replay(old(View()), asked), Stream.BUFFER_CHUNK))
                       + [Control(old(cursor))]
    {
      hide ChunkTexts, Outputs;
      var start, end := bufCur, cursor;
      var from := 0;
      if asked == -1 {
        from := end;
      } else if asked >= 0 {
        from := asked;
      }
      var replay: seq<Unit> := [];
      if |buffer| > 0 && from < end {
        var offset := from - start;
        if offset < 0 {
          offset := 0;
        }
        if offset < |buffer| {
          replay := buffer[offset..];
        }
      }
      assert replay == Stream.Replay(old(View()), asked);

      key := nextSub;
      nextSub := nextSub + 1;
      subs := subs + {key};
      links := links[key := Stream.Link(asked, start, end, replay, [], [], false)];

      initial := Frames(replay);
      initial := initial + [Control(end)];
    }

    /** A client goes away. Harmless when its channel was closed already. */
    method CloseConn(key: nat)
      requires Valid()
      modifies this
      ensures Valid() && View() == Stream.Close(old(View()), key)
      ensures subs == old(subs) - {key} && links.Keys == old(links).Keys && (key in links ==> links[key].closed)
    {
      if key in subs {
        assert !links[key].closed;
        subs := subs - {key};
        links := links[key := links[key].(closed := true)];
      }
    }

    /** The client takes the next frame off its channel; without one it waits. */
    method Take(key: nat) returns (text: Text)
      requires Valid() && key in links && links[key].queue != []
      modifies this`links
      ensures Valid() && View() == Stream.Take(old(View()), key)
      ensures links.Keys == old(links).Keys && [text] + links[key].queue == old(links)[key].queue
    {
      var l := links[key];
      text := l.queue[0];
      links := links[key := l.(taken := l.taken + [text], queue := l.queue[1..])];
    }
  }

  lemma FanoutNone(links: map<nat, Stream.Link>, text: Text)
    ensures Stream.Fanout(links, {}, text) == links && Stream.Kept(links, {}) == {}
  {
  }

  lemma FanoutMore(links: map<nat, Stream.Link>, done: set<nat>, key: nat, text: Text)
    requires key in links && key !in done
    ensures Stream.Fanout(links, done, text)[key] == links[key] && key !in Stream.Kept(links, done)
    ensures Stream.Fanout(links, done + {key}, text)
         == Stream.Fanout(links, done, text)[key := Stream.Offer(links[key], text)]
    ensures Stream.Kept(links, done + {key})
         == Stream.Kept(links, done) + (if |links[key].queue| < Stream.SUB_BUFFER then {key} else {})
  {
  }

  lemma ChunkEdge(us: seq<Unit>, size: nat, i: nat)
    requires size > 0 && i < |us|
    ensures var j := if i + size > |us| then |us| else i + size;
            ChunkTexts(us[i..], size) == [TextOfUnits(us[i..j])] + ChunkTexts(us[j..], size)
  {
    hide TextOfUnits;
    if i + size < |us| {
      assert us[i..][..size] == us[i..i + size] && us[i..][size..] == us[i + size..];
      FirstChunk(us[i..], size);
    } else {
      assert us[i..|us|] == us[i..] && us[|us|..] == [];
      assert Chunks([], size) == [] && Chunks(us[i..], size) == [us[i..]];
    }
  }

  function Outputs(texts: seq<Text>): seq<Frame> {
    seq(|texts|, i requires 0 <= i < |texts| => Output(texts[i]))
  }

  method Frames(replay: seq<Unit>) returns (initial: seq<Frame>)
    ensures initial == Outputs(ChunkTexts(replay, Stream.BUFFER_CHUNK))
  {
    hide ChunkTexts, TextOfUnits;
    initial := [];
    ghost var texts: seq<Text> := [];
    var i := 0;
    assert replay[0..] == replay;
    while i < |replay|
      invariant 0 <= i
      invariant initial == Outputs(texts)
      invariant texts + ChunkTexts(replay[if i < |replay| then i else |replay|..], Stream.BUFFER_CHUNK)
             == ChunkTexts(replay, Stream.BUFFER_CHUNK)
    {
      var j := i + Stream.BUFFER_CHUNK;
      if j > |replay| {
        j := |replay|;
      }
      ChunkEdge(replay, Stream.BUFFER_CHUNK, i);
      initial := initial + [Output(TextOfUnits(replay[i..j]))];
      texts := texts + [TextOfUnits(replay[i..j])];
      i := i + Stream.BUFFER_CHUNK;
    }
    NoChunks(replay);
  }

  lemma NoChunks(us: seq<Unit>)
    ensures ChunkTexts(us[|us|..], Stream.BUFFER_CHUNK) == []
  {
  }
}
