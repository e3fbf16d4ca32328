// The operation journal: a file that only grows, one line an entry.
module Journals {

  class Journal<Entry> {
    var entries: seq<Entry>

    constructor ()
      ensures entries == []
    {
      entries := [];
    }

    /** `append`: one line at the end, or an error when the file cannot be written. */
    method Append(entry: Entry, writable: bool) returns (written: bool)
      modifies this
      ensures written == writable
      ensures entries == if written then old(entries) + [entry] else old(entries)
    {
      if writable {
        entries := entries + [entry];
      }
      return writable;
    }
  }
}
