/**
  * How the conservation counters respond to one more operation. The counter of a document is the size of two sets of
  * operations; accepting one operation adds one element to one of the sets of one document and changes the sets of no
  * other document, which is all that the files about uploads, publications, retries and disables need to know.
  */
module KnowledgeCounting {
  import opened KnowledgeTypes
  import opened KnowledgeInvariant

  // New versions may appear, but only uploaded ones; document, origin of the others never change.
  ghost predicate VersionsGrow(vers: Vers, vers': Vers) {
    && (forall v :: v in vers ==> v in vers' && vers'[v].doc == vers[v].doc && vers'[v].origin == vers[v].origin)
    && (forall v :: v in vers' && v !in vers ==> vers'[v].origin.Uploaded?)
  }

  ghost predicate VersionsKnown(vers: Vers, ops: Ops) {
    forall o :: o in ops ==> ops[o].version in vers
  }

  lemma ImportedSame(vers: Vers, vers': Vers, d: DocId)
    requires VersionsGrow(vers, vers')
    ensures IsImported(vers', d) == IsImported(vers, d)
  {
    if IsImported(vers, d) {
      var v :| v in vers && vers[v].doc == d && vers[v].origin.Imported?;
      assert v in vers' && vers'[v].doc == d;
    }
  }

  lemma IntentAdded(vers: Vers, ops: Ops, vers': Vers, opId: OpId, row: Operation, d: DocId)
    requires VersionsKnown(vers, ops) && VersionsGrow(vers, vers') && opId !in ops
    requires row.version in vers' && !FromImport(vers'[row.version], row.action) && !Finished(row, PUBLISH)
    ensures Intents(vers', ops[opId := row], d) == Intents(vers, ops, d)
            + if vers'[row.version].doc == d then {opId} else {}
    ensures Finalized(vers', ops[opId := row], d) == Finalized(vers, ops, d)
    ensures opId !in Intents(vers, ops, d)
  {
  }

  lemma NoIntents(vers: Vers, ops: Ops, d: DocId)
    requires forall v :: v in vers ==> vers[v].doc != d
    ensures Intents(vers, ops, d) == {} && Finalized(vers, ops, d) == {} && !IsImported(vers, d)
  {
  }

  /** Accepting one intent raises the counter of its document by one and no other. */
  lemma IntentCounted(docs: Docs, vers: Vers, ops: Ops, docs': Docs, vers': Vers, opId: OpId, row: Operation,
                      doc: DocId)
    requires RowsCounted(docs, vers, ops) && VersionsKnown(vers, ops) && VersionsGrow(vers, vers') && opId !in ops
    requires row.version in vers' && vers'[row.version].doc == doc && !FromImport(vers'[row.version], row.action)
             && !Finished(row, PUBLISH)
    requires docs'.Keys == docs.Keys + {doc}
    requires forall d :: d in docs && d != doc ==> docs'[d].rowVersion == docs[d].rowVersion
    requires docs'[doc].rowVersion == (if doc in docs then docs[doc].rowVersion else 0) + 1
    requires doc !in docs ==> forall v :: v in vers ==> vers[v].doc != doc
    ensures RowsCounted(docs', vers', ops[opId := row])
  {
    var ops' := ops[opId := row];
    forall d | d in docs'
      ensures docs'[d].rowVersion == |Intents(vers', ops', d)| + |Finalized(vers', ops', d)|
              + if IsImported(vers', d) then 1 else 0
    {
      hide Intents, Finalized, IsImported, VersionsGrow, VersionsKnown;
      IntentAdded(vers, ops, vers', opId, row, d);
      ImportedSame(vers, vers', d);
      if d !in docs {
        NoIntents(vers, ops, d);
      }
    }
  }
}
