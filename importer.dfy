/** The import routine of CriarContatos: it walks the table chunk by chunk,
    maps each row to its payload and submits it, counting every submission
    whatever the API answers. The HTTP POST is modelled as appending the
    payload to the log `sent` of everything submitted so far. */
module Importer {
  import opened Contacts
  import opened Batching

  class ContactCreator {
    /** The bearer token the requests are sent with. */
    const token: string
    /** Every payload submitted through this object, in submission order. */
    var sent: seq<Payload>

    constructor (token: string)
      ensures this.token == token && sent == []
    {
      this.token := token;
      sent := [];
    }

    /** post_contatos: one submission; the response is never inspected. */
    method PostContact(payload: Payload)
      modifies this
      ensures sent == old(sent) + [payload]
    {
      sent := sent + [payload];
    }

    /** criar_payload_em_lotes: returns the number of rows submitted. The
        ghost `chunks` records the [start, stop) bounds of every chunk the
        outer loop visits; the inner loop over a chunk's rows is
        SubmitChunk. */
    method CreatePayloadsInBatches(types: seq<ContactType>, rows: seq<Row>, batchSize: nat)
      returns (count: nat, ghost chunks: seq<Chunk>)
      requires batchSize > 0
      modifies this
      ensures count == |rows|
      ensures sent == old(sent) + MapRows(BuildLookup(types), rows)
      ensures chunks == Chunks(|rows|, batchSize)
    {
      var lookup := BuildLookup(types);
      count := 0;
      var total := |rows|;
      var start := 0;
      chunks := [];
      while start < total
        invariant count == Min(start, total)
        invariant chunks + ChunksFrom(start, total, batchSize) == Chunks(total, batchSize)
        invariant sent == old(sent) + MapRows(lookup, rows[..count])
        decreases total - start
      {
        var stop := Min(start + batchSize, total);
        var batch := rows[start..stop];
        ghost var before := sent;
        count := SubmitChunk(lookup, batch, count);
        BatchStep(lookup, rows, batchSize, start, chunks, old(sent), before, sent);
        chunks := chunks + [Chunk(start, stop)];
        start := start + batchSize;
      }
      assert rows[..count] == rows;
    }

    /** The inner loop of criar_payload_em_lotes: maps and submits every row
        of one chunk in order, adding one to the counter per submission. */
    method SubmitChunk(lookup: map<string, int>, batch: seq<Row>, count: nat) returns (count': nat)
      modifies this
      ensures count' == count + |batch|
      ensures sent == old(sent) + MapRows(lookup, batch)
    {
      count' := count;
      var i := 0;
      while i < |batch|
        invariant i <= |batch|
        invariant count' == count + i
        invariant sent == old(sent) + MapRows(lookup, batch[..i])
      {
        MapRowsPrefixStep(lookup, batch, i);
        PostContact(MapRow(lookup, batch[i]));
        count' := count' + 1;
        i := i + 1;
      }
      assert batch[..i] == batch;
    }
  }

  /** One pass of the outer loop of criar_payload_em_lotes: the chunk just
      submitted joins the visited chunks, and its payloads extend the log
      from the rows before it to the rows up to its end. */
  lemma BatchStep(lookup: map<string, int>, rows: seq<Row>, size: nat, start: nat,
                  chunks: seq<Chunk>, base: seq<Payload>, before: seq<Payload>, after: seq<Payload>)
    requires size > 0 && start < |rows|
    requires chunks + ChunksFrom(start, |rows|, size) == Chunks(|rows|, size)
    requires before == base + MapRows(lookup, rows[..start])
    requires after == before + MapRows(lookup, rows[start..Min(start + size, |rows|)])
    ensures (chunks + [Chunk(start, Min(start + size, |rows|))]) + ChunksFrom(start + size, |rows|, size)
            == Chunks(|rows|, size)
    ensures after == base + MapRows(lookup, rows[..Min(start + size, |rows|)])
  {
    var stop := Min(start + size, |rows|);
    ChunksFromStep(chunks, start, |rows|, size);
    MapRowsAppend(lookup, rows, start, stop);
    AppendAssociates(base, MapRows(lookup, rows[..start]), MapRows(lookup, rows[start..stop]));
  }

  lemma AppendAssociates<T>(a: seq<T>, b: seq<T>, c: seq<T>)
    ensures (a + b) + c == a + (b + c)
  {
  }

  /** With no rows, the import submits nothing and reports 0, whatever the
      chunk size. */
  method ImportEmptyTable(types: seq<ContactType>, batchSize: nat)
    requires batchSize > 0
  {
    var creator := new ContactCreator("token");
    var count, chunks := creator.CreatePayloadsInBatches(types, [], batchSize);
    assert count == 0 && creator.sent == [] && chunks == [];
  }

  /** 23 rows in chunks of 10: three chunks of 10, 10 and 3 rows, and a
      count of 23. */
  method ImportTwentyThreeRows(types: seq<ContactType>, rows: seq<Row>)
    requires |rows| == 23
  {
    var creator := new ContactCreator("token");
    var count, chunks := creator.CreatePayloadsInBatches(types, rows, 10);
    TwentyThreeRowsExample();
    assert count == 23 && |creator.sent| == 23;
    assert chunks == [Chunk(0, 10), Chunk(10, 20), Chunk(20, 23)];
  }
}
