/** Metadata of a media source: fields, and flags for those that are known. */
module Metadatas {
  import opened Prelude
  import opened Words

  datatype Field = State | Volume | Position | Duration | Title | Artist | Album

  datatype Meta = Meta(flags: set<Field>, state: Int32, volume: Int32, position: Word32, duration: Word32,
                       title: Option<string>, artist: Option<string>)

  const BLANK := Meta({}, 0, 0, 0, 0, None, None)

  // A record after news of some of its fields.
  function Merge(data: Meta, diff: Meta): Meta {
    Meta(data.flags + diff.flags,
         if State in diff.flags then diff.state else data.state,
         if Volume in diff.flags then diff.volume else data.volume,
         if Position in diff.flags then diff.position else data.position,
         if Duration in diff.flags then diff.duration else data.duration,
         if Title in diff.flags then diff.title else data.title,
         if Artist in diff.flags then diff.artist else data.artist)
  }

  // The news are forgotten where they were taken over.
  function Drained(diff: Meta): Meta {
    diff.(title := if Title in diff.flags then None else diff.title,
          artist := if Artist in diff.flags then None else diff.artist)
  }

  // Of every numeric field that one record knows, the other knows the same value.
  predicate Agrees(cache: Meta, data: Meta) {
    && (State in data.flags ==> State in cache.flags && cache.state == data.state)
    && (Volume in data.flags ==> Volume in cache.flags && cache.volume == data.volume)
    && (Position in data.flags ==> Position in cache.flags && cache.position == data.position)
    && (Duration in data.flags ==> Duration in cache.flags && cache.duration == data.duration)
  }

  // Later news of the same kind win, whatever was known before; and news twice are news once.
  lemma MergeTwice(data: Meta, first: Meta, second: Meta)
    ensures Merge(Merge(data, first), second) == Merge(data, Merge(first, second))
    ensures first.flags <= second.flags ==>
              Merge(Merge(data, first), second) == Merge(data, second)
  {
    assert data.flags + first.flags + second.flags == data.flags + (first.flags + second.flags);
    if first.flags <= second.flags {
      assert first.flags + second.flags == second.flags;
    }
  }

  class Metadata {
    var flags: set<Field>
    var state: Int32
    var volume: Int32
    var position: Word32
    var duration: Word32
    var title: Option<string>
    var artist: Option<string>

    function View(): Meta
      reads this
    {
      Meta(flags, state, volume, position, duration, title, artist)
    }

    // media_metadata_init
    constructor ()
      ensures View() == BLANK
    {
      flags, state, volume, position, duration, title, artist := {}, 0, 0, 0, 0, None, None;
    }

    method Reinit()
      modifies this
      ensures View() == BLANK
    {
      title, artist := None, None;
      flags, state, volume, position, duration := {}, 0, 0, 0, 0;
    }

    // All fields at once.
    method Read(m: Meta)
      modifies this
      ensures View() == m
    {
      flags, state, volume, position, duration := m.flags, m.state, m.volume, m.position, m.duration;
      title, artist := m.title, m.artist;
    }

    // The strings move from the news to the record.
    method Update(diff: Metadata)
      requires diff != this
      modifies this, diff
      ensures View() == Merge(old(View()), old(diff.View()))
      ensures diff.View() == Drained(old(diff.View()))
    {
      flags := flags + diff.flags;
      if State in diff.flags {
        state := diff.state;
      }
      if Volume in diff.flags {
        volume := diff.volume;
      }
      if Position in diff.flags {
        position := diff.position;
      }
      if Duration in diff.flags {
        duration := diff.duration;
      }
      if Title in diff.flags {
        title := diff.title;
        diff.title := None;
      }
      if Artist in diff.flags {
        artist := diff.artist;
        diff.artist := None;
      }
    }
  }
}
