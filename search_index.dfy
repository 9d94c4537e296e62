/**
 * The `user-profiles` search index the sync handler writes to. Documents
 * indexed under an id live in `docs`; a document indexed without an id is
 * stored by the search engine under an id it generates itself, which nothing
 * in the handler can name again, so those are kept apart in `unkeyed`.
 */
module SearchIndex {
  import opened Wrappers
  import opened Documents

  datatype IndexState = IndexState(docs: map<string, Document>, unkeyed: seq<Document>)

  /**
   * What a successful `client.index` call does: with an id, the whole
   * document under that id is replaced (or created); without one, a new
   * document is added under a generated id.
   */
  function Upsert(s: IndexState, id: Option<string>, doc: Document): (r: IndexState)
    ensures id.Some? ==> r.docs.Keys == s.docs.Keys + {id.value} && r.docs[id.value] == doc
    ensures id.Some? ==> forall k :: k in s.docs && k != id.value ==> r.docs[k] == s.docs[k]
    ensures id.Some? ==> r.unkeyed == s.unkeyed
    ensures id.None? ==> r.docs == s.docs && r.unkeyed == s.unkeyed + [doc]
  {
    if id.Some? then s.(docs := s.docs[id.value := doc]) else s.(unkeyed := s.unkeyed + [doc])
  }

  /** What a successful `client.delete` call does: the document under `id` is gone, all else stays. */
  function Remove(s: IndexState, id: string): (r: IndexState)
    ensures r.docs.Keys == s.docs.Keys - {id}
    ensures forall k :: k in r.docs ==> r.docs[k] == s.docs[k]
    ensures r.unkeyed == s.unkeyed
  {
    s.(docs := s.docs - {id})
  }

  /**
   * The index as the handler's client reaches it. Every call may fail (the
   * network, the search engine rejecting the request); a failed call leaves
   * the index as it was and is reported as `false`.
   */
  class Sink {
    var docs: map<string, Document>
    var unkeyed: seq<Document>

    function State(): IndexState
      reads this
    {
      IndexState(docs, unkeyed)
    }

    constructor (initial: IndexState)
      ensures State() == initial
    {
      docs := initial.docs;
      unkeyed := initial.unkeyed;
    }

    /** `client.index({index: 'user-profiles', type: '_doc', id, body: doc})`. */
    method Index(id: Option<string>, doc: Document) returns (ok: bool)
      modifies this
      ensures State() == if ok then Upsert(old(State()), id, doc) else old(State())
    {
      ok :| true;
      if ok {
        if id.Some? {
          docs := docs[id.value := doc];
        } else {
          unkeyed := unkeyed + [doc];
        }
      }
    }

    /** `client.delete({index: 'user-profiles', type: '_doc', id})`. */
    method Delete(id: string) returns (ok: bool)
      modifies this
      ensures State() == if ok then Remove(old(State()), id) else old(State())
    {
      ok :| true;
      if ok {
        docs := docs - {id};
      }
    }
  }
}
