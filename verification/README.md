# A verified model of goydb's storage, replication and queries

goydb is a document database in the CouchDB family. Every document has a set of leaf
revisions, one of which wins; five kinds of index follow the winners; a replicator copies
revisions between databases and remembers how far it got. This project models that code in
Dafny and proves what it keeps, over every input and every run.

| module | what it holds |
|---|---|
| `ByteStrings`, `SortedKeys` | keys as bytes: order, big-endian numbers, sorted key lists, seek |
| `Engine` | buckets with counters, the deferred operation log, `class WriteTransaction` |
| `Revisions`, `Documents` | revision order and winner rule, documents, `_revisions` |
| `Indexes`, `ViewRep`, `IndexInvariants` | what each index writes, and that one replacement keeps it in agreement |
| `DocStore`, `Transactions`, `Databases` | reads and the three writers: as functions from a snapshot to a plan, as methods of `class Transaction`, and as transactions of `class Database` |
| `Effects`, `StoreInvariant`, `Writers`, `ConflictWriters`, `Reads` | the invariant over all buckets, kept by each writer; what each writer stores and what a read shows of it |
| `Runs`, `Theorems`, `Batch`, `Convergence` | whole runs: reachability, a batch against a sequence, replicas |
| `Iterators`, `Rebuilds`, `ChangesFeed`, `LocalSource` | the cursor, index building, the feed, a database as a replication source |
| `Selectors`, `Finds`, `Queries`, `Answers` | Mango queries: matching, the scan, the index, the planner, and the answer document by document |
| `Replication`, `Checkpoints` | the replicator, its checkpoints, failures, and where a run resumes |
| `BatchedReduce`, `GroupedReduce`, `Collation` | view reduction and key order |
| `Lucene`, `Adjacency` | the search syntax: tokenizer and parser, and what leaving out an OR means |
| `Attachments`, `Blobs` | reference counts of blobs over whole runs, and what one call does |

The source reads a snapshot and appends to a log that is replayed at commit. The model does the
same: a plan is computed from the snapshot by a function, the methods of `class Transaction` are
proved to log exactly the plan, `Landed` commits it (`Committed`, if no key is too long), and `Inv` says what every bucket has to do
with every other. Map functions, reduce scripts, regular expressions, CBOR, the revision hash and
the blank test are parameters, so the theorems hold for all of them. BSON is a constructor: a
stored value is either a document or bytes.

`Reachable` stores are those that edits, deliveries with arbitrary histories, deletions and their
failures lead to from an empty database. A delivery needs a well-formed revision that heads its
history and is not its own ancestor; nothing is asked of the generations of the rest, since
databases send merged histories to each other.

## Findings

Where the code does not do what its own comments or a caller would expect, the code is modelled as
it is, and the exact condition is proved.

- **A reader of the feed can miss a change.** `Changes` seeks the sequence it was given and then
  steps over what it found, on the assumption that this sequence is still there. It returns
  everything after the sequence exactly when the sequence is still in the feed or nothing comes
  after it (`ChangesFeed.AfterExact`). After an edit of the document a reader saw last, the reader
  misses the next change (`ChangesFeed.RewriteHidesChange`). As the source of a replication a
  database of this program therefore meets its contract exactly for tokens that are the beginning,
  still live, or past everything (`LocalSource.LocalMeetsContract`).
- **Reads between replicas drop conflict branches.** `GetDocument` appends the revisions of the
  other branches to the history it returns. Between two local databases `_revisions` is a Go
  struct, so the type assertion in `PutDocumentForReplication` fails and this merged history is
  used: all other branches of the sender count as ancestors and cease to be leaves on the receiver,
  so the receiver has all the sender's leaves exactly when there is one (`Convergence.BranchesLost`).
  Convergence of the leaves is therefore proved for genuine chains (`Convergence.SameLeaves`); the
  winner rule holds without that (`Runs.ReachableInv`).
- **The last resort in choosing a winner.** `DeleteDocument` never needs to look up a third leaf
  (`Theorems.BranchDeletionWinner`). `PutDocumentForReplication` does, exactly when the history
  names the stored winner and a leaf it does not name is above the delivery
  (`ConflictWriters.LookupNeeded`); falling generations rule that out
  (`ConflictWriters.ChainKeepsWinner`, `ConflictWriters.SettledNext`).
- **An unlimited find stops early.** `IncLimit` turns the unlimited -1 into 0, so a scan without a
  limit ends at the first document that does not match. It is complete exactly when no match
  follows a document that does not match (`Finds.UnlimitedExact`).
- **Partial index lookups return no IDs.** `LookupEq` documents that a prefix of the fields may be
  given. What it returns then still begins with the other fields; it returns the right IDs exactly
  when all fields are given or nothing matches (`Finds.LookupReturnsIds`).
- **A reduction can lose rows.** Partial results of a key are reduced again in groups of 1000, and
  only the last group's result is kept: a count is right exactly up to 1000 * 1000 rows of one key
  (`BatchedReduce.CountExact`, stated for any batch size).
- **The deleted index stops at the first live document** of a list it is given; the writers give it one
  document at a time, so its agreement does not suffer (`Indexes.DeletedUpdateStored`).
- **Adjacent terms are not always a disjunction.** A phrase with at most white space between it and
  a word that ends in a colon is taken as that field's value. Leaving out the OR between any other
  two terms, anywhere in any input, changes nothing, and between these two it always does; it
  never makes a query of what is none, or none of what is one (`Adjacency.AdjacentIsOr`). The
  shortest such queries are in `Lucene.ColonTakesPhrase` and `Lucene.OrKeepsPhrase`.
- **`_revisions` only carries histories whose generations fall one by one**; merged histories do
  not survive the trip (`Documents.HistoryRoundTrip`).
- **A checkpoint search finds the oldest shared session.** Saves append to the history and the
  search goes through it from the front, so when the two last sessions differ a run resumes from the
  first recorded one the two sides have in common, not the last (`Checkpoints.LoadIs`).
- **Two counters of a replication have each other's name.** `MissingFound` counts the documents that
  are checked and `MissingChecked` those of them that lack a revision (`Checkpoints.BatchCounts`).
- **`$exists` ignores its argument**: with `false` it finds the documents that have the field
  (`Selectors.ExistsIgnoresArgument`). `$size` with -1 matches everything that is no array
  (`Selectors.ListTests`), and an empty group never holds, not even `$nor` (`Selectors.GroupTests`).
- **Attaching the same content again is counted twice.** A put of the digest that already stands
  under that name adds to its count, although no reference is new, and the blob then outlives its
  last use; exact counts stay exact in every other case and in no other (`Blobs.ReattachedMiscounts`).
- **A reversed view range** with an exclusive end leaves out the other bound: it selects the same
  keys exactly in the cases of `Collation.ReversedRange`.

## Model

| member | source | states |
|---|---|---|
| ByteStrings.U64KeyOrder | internal/adapter/index/db_index_unique_uint64.go:40-45 | sequence keys are in byte order exactly when the sequences are in numeric order, and a key gives its sequence back |
| ByteStrings.FirstByteDecides | pkg/model/view_key_cmp.go:55-56 | the first byte in which two strings differ decides their order, and a proper prefix comes first |
| Engine.WriteTransaction.Commit | internal/adapter/bbolt_engine/write_trx.go:101-151 | the commit loop succeeds exactly when no operation fails and no key to be written is empty or over 32768 bytes, and then leaves what replaying the log in order leaves; else the old store |
| Engine.ReplayAppend | internal/adapter/bbolt_engine/write_trx.go:101-151 | replaying a log and then another is replaying the two joined, the machine's sequence and failure carried over |
| Revisions.CompareRevsOrder | pkg/model/doc.go:143-154 | the revision order is a total preorder on all strings, and tells any two well-formed revisions apart |
| Revisions.GenerationsDecide | pkg/model/doc.go:143-154 | of two well-formed revisions the one of the higher generation is above; at the same generation the hash decides, byte by byte |
| Revisions.WinnerUnique | pkg/model/doc.go:156-159 | the winner of well-formed revisions is the one that none is above, in whatever order they come |
| Revisions.EditBeats | pkg/model/doc.go:203-215 | an edit's generation is one more than the edited one's, so with any hash its revision is strictly above every revision that was not above the edited one |
| Documents.HistoryRoundTrip | pkg/model/doc.go:161-189 | a history put into start and ids and parsed again is the same exactly when its generations fall one by one |
| Documents.FieldFollowsPath | pkg/model/doc.go:520-549 | a path is taken apart at its dots: a field is the member its last name has in the value of the path before that, and nothing where a name is empty, a value is no object or there is no such member |
| StoreInvariant.LeafScanExact | internal/adapter/storage/db_trx.go:69-102 | a prefix scan for an ID's leaves meets another ID's exactly when that ID continues the first with a NUL |
| Transactions.Transaction.GetDocument | internal/adapter/storage/db_trx.go:212-267 | a read is the stored document with meta members, sequence, conflicts and the branches' histories filled in |
| Reads.ReadMembers | internal/adapter/storage/db_trx.go:212-267 | a read sets exactly the ID, the revision, the deletion mark, one attachment entry per file and, if there is another leaf, the conflicts: all other leaves in key order; every other member is as stored |
| Reads.HistoryShown | internal/adapter/storage/db_trx.go:237-267 | a read's history begins with the stored one, and further holds exactly what the other leaves' histories have besides, each once |
| Transactions.Transaction.PutDocument | internal/adapter/storage/db_trx.go:117-210 | an edit logs exactly its plan, or nothing on a conflict |
| Transactions.Transaction.PutDocumentForReplication | internal/adapter/storage/db_trx.go:269-430 | a delivery logs exactly its plan: leaf, pruned ancestors, and a new winner if it changed |
| Transactions.Transaction.DeleteDocument | internal/adapter/storage/db_trx.go:432-557 | a deletion logs exactly its plan, for the winner and for the leaf of a branch |
| Writers.PutKeeps | internal/adapter/storage/db_trx.go:117-210 | an edit keeps the invariant of all buckets; it is a conflict exactly when there is a document and the edit does not name its revision, succeeds exactly when it is no conflict and its revision can be read, and then is the only new leaf and the winner, above every leaf; stored is the given document under the next generation and the hash of its content, its history the new revision and then what a read showed before, cut at 1000, and the leaf is the same document |
| Reads.EditKeepsKnown | internal/adapter/storage/db_trx.go:158-171 | unless the history is cut, whatever revision was known before an edit is known after it, and so is the new one |
| ConflictWriters.ReplicationKeeps | internal/adapter/storage/db_trx.go:269-430 | a delivery keeps the invariant whatever the rest of its history; it joins the leaves, its ancestors leave them, and the highest leaf left is the winner with its document |
| ConflictWriters.HistoryIsRecorded | internal/adapter/storage/db_trx.go:284-360 | a delivery's history is the one spelled out in its `_revisions`, cut at 1000, else its own, else its revision alone; unless its revision is stored already, that document with this history is a leaf, the others in it are leaves no longer, and the highest leaf left is the winner |
| ConflictWriters.SentHistoryRecorded | internal/adapter/storage/db_trx.go:284-360 | sending a history whose generations fall one by one as start and ids makes the receiver record exactly that history, with the same effect on leaves and winner |
| ConflictWriters.LookupNeeded | internal/adapter/storage/db_trx.go:356-427 | the winner is a third leaf exactly when the writer drops the stored winner and a leaf it keeps is above what joins |
| ConflictWriters.SettledNext | internal/adapter/storage/db_trx.go:356-427 | if the stored winner is not dropped for something below it, the new winner is the higher of the two |
| ConflictWriters.DeleteKeeps | internal/adapter/storage/db_trx.go:432-557 | a deletion keeps the invariant; of the winner it is an edit, of another leaf it puts a tombstone without data one generation up in its place, which goes on from that leaf's history, of anything else it is refused |
| IndexInvariants.IndexStep | internal/adapter/storage/db_trx.go:166-207 | replacing one ID's document, other buckets written in between, leaves a changes, deleted, view or Mango index agreeing with the new winners |
| ViewRep.RecordOfExact | internal/adapter/index/db_index_regular.go:134-161 | the scan for an ID's invalidation records takes its own records and no other ID's, not even of an ID it is a prefix of |
| ViewRep.SuffixInjective | internal/adapter/index/db_index_regular.go:191-217 | a sequence-suffixed key determines both the key and the sequence |
| Indexes.RemoveOldKeys | internal/adapter/index/db_index_regular.go:134-161 | the cursor loop logs the removal of exactly the ID's records and the rows they name |
| Indexes.ReplaceRows | internal/adapter/index/db_index_regular.go:84-121 | the index logs the removal of the old rows and the new ones with shared sequences |
| Indexes.MangoStore | internal/adapter/index/db_index_mango.go:94-128 | the Mango index logs the removal of the ID's old key and the new one |
| Indexes.DeletedUpdateStored | internal/adapter/index/db_index_unique.go:69-87 | the loop logs an entry for each document of the leading run of deleted ones, and stops at the first that is not deleted |
| Runs.ReachableInv | internal/adapter/storage/db_trx.go:117-557 | after any run of edits, deliveries and deletions from an empty database, every bucket agrees with every other |
| Theorems.WinnerIsHighestLeaf | internal/adapter/storage/db_trx.go:186-192 | in every reachable store the stored revision is a leaf that no leaf is above, and there are leaves exactly when there is a document |
| Theorems.EditWins | internal/adapter/storage/db_trx.go:186-210 | in every reachable store an edit ends up above all leaves, conflict branches included |
| Theorems.BranchDeletionWinner | internal/adapter/storage/db_trx.go:502-557 | in every reachable store, ending a branch leaves the old winner or the tombstone as the winner, never a third leaf |
| Theorems.DeliveryWinner | internal/adapter/storage/db_trx.go:356-430 | in every reachable store, after such a delivery the winner is the top of the remaining leaves, and a committed leaf is looked up exactly in the stated case |
| Theorems.OneChangeEach | internal/adapter/index/db_index_changes.go:68-137 | in every reachable store a document has exactly one feed entry, under the sequence a read reports, and reads never fail for want of one |
| Theorems.DeletedAndTotal | internal/adapter/storage/db_iter.go:49-67 | in every reachable store the deleted index holds exactly the tombstoned winners, and the reported total is the number of live non-local documents |
| Theorems.ViewHoldsRows | internal/adapter/index/db_index_regular.go:84-132 | in every reachable store the rows emitted for live documents are one to one with the entries of a view, equal rows included, and one to one with the records, each of which points at its own row |
| Batch.BatchEqualsSequence | internal/handler/db_docs_bulk.go:133-169 | one transaction of writes to distinct IDs, all reading the committed state, leaves the same store as one transaction each: documents, leaves, indices, counters; if a key is too long it leaves the store as it was |
| Databases.Database.BulkDocs | internal/adapter/replication/local_db.go:222-244 | the batch is committed exactly if every write succeeds and the commit does, else nothing is |
| Databases.Database.RevsDiff | internal/adapter/replication/local_db.go:132-158 | an ID is reported exactly when it is unknown or one of its named revisions is missing, with exactly the missing ones |
| Convergence.SameWinner | internal/adapter/storage/db_trx.go:269-430 | two databases that received the same revisions, in any order and with repeats, have the same winner |
| Convergence.WinnerIsHighest | internal/adapter/storage/db_trx.go:356-427 | that winner is a delivery of the highest revision, present exactly when something was delivered |
| Convergence.LeavesAreTips | internal/adapter/replication/local_db.go:132-158 | filtered by RevsDiff, the leaves are exactly the offered revisions that are no offered revision's ancestor, and every offered revision is known |
| Convergence.SameLeaves | internal/adapter/replication/local_db.go:132-158 | two databases offered the same revisions of one tree, in any order and with repeats, end with the same leaves and winner |
| Convergence.BranchesLost | internal/adapter/storage/db_trx.go:237-267 | a merged read delivered as it is makes the receiver drop all other branches the sender has; all the sender's leaves are leaves there exactly when it has just the one |
| ChangesFeed.PageExact | internal/adapter/storage/db_changes.go:35-89 | a page shows what reads of the next entries from the start position on give, each under its own sequence, as many as the limit allows, 1000 if it is 0; pending counts exactly the rest |
| ChangesFeed.ReadChanges | internal/adapter/storage/db_changes.go:35-89 | the cursor loop over a snapshot returns that page and its pending count |
| ChangesFeed.AfterExact | internal/adapter/storage/db_changes.go:46-55 | the entries served after n are those with a later sequence exactly when n is still an entry or nothing is later, and otherwise all but the first |
| ChangesFeed.PagesVisitAll | internal/adapter/replication/local_db.go:78-130 | paging a quiet feed by the last sequence visits every entry once in increasing order, and pending is what the later pages hold |
| ChangesFeed.RewriteHidesChange | internal/adapter/storage/db_changes.go:46-55 | after the document at sequence n was edited, reading after n misses a change |
| ChangesFeed.WriteMoves | internal/adapter/index/db_index_changes.go:68-109 | every edit, delivery or deletion moves its document to the end of the feed under the next number, or changes neither documents nor feed |
| LocalSource.LocalMeetsContract | internal/adapter/replication/local_db.go:78-130 | the adapter answers as the contract of a replication source says exactly when the token is the beginning, live, or past everything |
| Iterators.YieldExact | internal/adapter/storage/db_iter.go:115-256 | the loop yields, in cursor order, the first `limit` live documents, local ones left out if asked, of the keys within the two bounds that are left after dropping `skip` of them; both directions, the end included or not, a descending start ten 0xFF bytes late |
| Iterators.Iterator.Documents | internal/adapter/storage/db_iter.go:115-256 | First, Continue and Next, called in a loop, yield that sequence |
| Rebuilds.TotalExact | internal/adapter/storage/db_iter.go:49-67 | the total is the number of live non-local documents |
| Rebuilds.Rebuild | internal/controller/design_doc.go:16-71 | the paging loop ends, with the store its passes lead to, and reports an error exactly if a pass cannot be committed |
| Rebuilds.RebuildFails | internal/controller/design_doc.go:16-71 | it fails only where the commit of a pass that has documents does not land, and leaves what the passes before left |
| Rebuilds.RebuildComplete | internal/controller/design_doc.go:16-71 | over a quiet database the index agrees with all winners after a rebuild without an error, whichever of them it had taken in before |
| Selectors.EqImplied | pkg/model/find.go:76-88 | a matching document has every equality condition's value |
| Selectors.ConditionsAre | pkg/model/find.go:76-88 | a field has an equality condition exactly if a top-level member is one, and the last one counts |
| Selectors.NumbersCompare | pkg/model/find.go:464-487 | on numbers the four comparisons are those of the integers, and exactly one of less, equal and greater holds |
| Selectors.StringsCompare | pkg/model/find.go:464-487 | on strings they are those of byte order, and exactly one of less, equal and greater holds |
| Selectors.OthersNeverCompare | pkg/model/find.go:700-774 | a value is never less or greater than one of another type, nor are values that are neither numbers nor strings; with equality they compare only if equal |
| Selectors.GroupTests | pkg/model/find.go:354-397 | an AND fails or holds as its first member that does not hold, an OR as its first that holds or fails, NOR is the negation of OR, NOT of its first member, and an empty group never holds |
| Selectors.ListTests | pkg/model/find.go:496-522 | `$in` holds exactly if an item equals the field and `$nin` if none does; `$size` compares with the number of items, which is -1 for what is no array |
| Selectors.AllTest | pkg/model/find.go:558-588 | `$all` holds exactly if every item of the argument is among the field's |
| Selectors.ExistsIgnoresArgument | pkg/model/find.go:488-489 | `$exists` holds exactly if there is a value, whatever its argument, so with false it says the opposite |
| Selectors.ModTests | pkg/model/find.go:523-537 | `$mod` takes the remainder that has the sign of the dividend, and a zero divisor ends the query |
| Selectors.RegexTests | pkg/model/find.go:538-557 | `$regex` answers as the pattern does on strings, and ends the query on anything else or a pattern that does not compile |
| Selectors.TypeTests | pkg/model/find.go:490-495 | `$type` names exactly the six types |
| Selectors.SameMatch | pkg/model/find.go:354-592 | a selector that avoids the meta members cannot tell a read from the stored document |
| Finds.LookupExact | internal/adapter/index/db_index_mango.go:148-204 | given a value for every field, the lookup finds exactly the live documents, design and local ones apart, whose fields encode like these values |
| Finds.LookupReturnsIds | internal/adapter/index/db_index_mango.go:148-170 | the lookup returns exactly the IDs of the documents with these leading values if and only if every field is given or there is none |
| Finds.ScanFinds | internal/adapter/storage/db_find_docs.go:42-64 | of the live documents left when `skip` raw entries are dropped from the bookmark on, a limited scan finds the first matches up to the limit, an unlimited one the matches before the first document that does not match |
| Finds.UnlimitedExact | internal/adapter/storage/db_iter.go:277-279 | an unlimited scan finds all matches exactly when they come first |
| Queries.BestMangoIndex | internal/adapter/storage/db_find_docs.go:88-139 | the index chosen is the first that the hint admits and all of whose fields have an equality condition, with these conditions' values; none exactly if there is no such index |
| Queries.FindDocs | internal/adapter/storage/db_find_docs.go:14-85 | the query is answered by the ordered slice of all matches if it has an order, else through the chosen index, else by the scan |
| Queries.AnswerIsScan | internal/adapter/storage/db_find_docs.go:14-85 | whatever indices there are and whichever is chosen, a query without an order, with a limit and no skip, gets the documents the full scan gives, in the same order, if no design or local document matches |
| Queries.OrderedSeesAll | internal/adapter/storage/db_find_docs.go:55-79 | a query with an order takes its slice from all matching live documents |
| Answers.ScanAnswers | internal/adapter/storage/db_find_docs.go:42-64 | with a limit and no usable index, the answer is the first documents at the places where the selector holds, and it fails exactly if matching fails before as many are found |
| Answers.LiveFromAre | internal/adapter/storage/db_find_docs.go:42-64 | what is scanned: in key order from the bookmark on, less the first `skip` entries of whatever kind, the documents that are not deleted |
| Answers.IndexAnswers | internal/adapter/storage/db_find_docs.go:88-196 | with an index, the first usable one, the answer is what reads of the looked-up IDs give that is live and matches, less the first `skip` of these, up to the limit if there is one |
| Answers.OrderedAnswers | internal/adapter/storage/db_find_docs.go:55-79 | with an order, the answer is all matches put in order, less the first `skip`, up to the limit |
| Answers.LeadingAre | internal/adapter/storage/db_iter.go:277-279 | an unlimited scan gives the documents before the first that does not match |
| Finds.IndexRefinesScan | internal/adapter/storage/db_find_docs.go:141-196 | with a limit and no skip, the index gives the documents the scan gives, in the same order, if no design or local document matches |
| Replication.Replicator.Run | internal/controller/replicator.go:91-166 | the loop over batches and checkpoint saves, faults given, leaves the peers, the ending and the counters of its specification |
| Replication.CheckpointSound | internal/controller/replicator.go:215-306 | after any history of edits, failing batches, lost saves on either side and targets created anew, every source change at or below the sequence a run resumes from is on the target |
| Checkpoints.LoadIs | internal/controller/replicator.go:215-248 | for any two checkpoints, loading gives the last sequence if their last sessions agree and the source's has one, else the sequence of the first entry of the source's history that has one and whose session the target knows; nothing exactly if a read fails, a side has no checkpoint, or there is neither |
| Checkpoints.ResumesIfShared | internal/controller/replicator.go:215-306 | after any history, a run starts from the beginning exactly if it cannot read both checkpoints or no session the source recorded with a sequence is known to the target, and else from the sequence recorded in such a session |
| Checkpoints.LandedSaveLoads | internal/controller/replicator.go:215-306 | whatever was there before, once a save lands on both sides a run that can read both resumes from what it saved |
| Checkpoints.SavedRemembers | internal/controller/replicator.go:250-306 | a save that lands is the last session and stands in the history after what a successful read of the old one kept; one that does not leaves all as it was |
| Checkpoints.NextRunReadsNothing | internal/controller/replicator.go:91-166 | after a finished one-shot run whose last saves landed, the next run over the quiet source reads no change, writes nothing and ends after one pass |
| Checkpoints.BatchCounts | internal/controller/replicator.go:317-391 | a faultless batch counts the documents of its page as found and those that lack a revision as checked, and reads and writes each missing revision |
| Replication.FinishedComplete | internal/controller/replicator.go:317-391 | a one-shot run over a quiet source that ends without error has put everything there, whatever failed on the way |
| Replication.OneShot | internal/controller/replicator.go:91-166 | without faults it ends within one pass more than there are changes, and writes each missing revision exactly once |
| Replication.RunThenRunAgain | internal/controller/replicator.go:91-166 | after any history, a finished run has put everything on the target, and the next run, from whatever checkpoint it finds, ends and writes nothing |
| BatchedReduce.Reducer.Result | internal/adapter/view/gojaview/reducer.go:117-174 | both passes over the rows fed so far give the specified reduction |
| BatchedReduce.BatchesAre | internal/adapter/view/gojaview/reducer.go:63-80 | the batches a script is called with are the rows in order, each of one key, none longer than the batch size, and one ends early only at a new key |
| BatchedReduce.BatchedReduceIsOne | internal/adapter/view/gojaview/reducer.go:63-174 | for a homomorphic script, keys contiguous and at most `size` batches each, the result has for each key the reduction of all its rows |
| BatchedReduce.CountExact | internal/adapter/view/gojaview/reducer.go:117-174 | a counting script counts a key's rows right exactly when it has no more than `size` batches |
| BatchedReduce.CountScriptCounts | internal/adapter/view/gojaview/reducer.go:82-115 | a concrete counting script is such a homomorphism |
| GroupedReduce.Count.Reduce | internal/adapter/reducer/count.go:18-39 | counting a key adds one to its total and to no other |
| GroupedReduce.Sum.Reduce | internal/adapter/reducer/sum.go:18-100 | adding a value changes its key's total only, by the value if both are integers |
| GroupedReduce.CountDocs | internal/controller/design_doc.go:107-173 | filtering, collapsing and counting row by row leaves the totals of the rows in range at that level |
| GroupedReduce.CountsRows | internal/controller/design_doc.go:107-173 | the count of a group is the number of rows within the key range and the inclusive document bounds whose key is the group, or agrees with it in its first n items; there is no other group |
| GroupedReduce.SumDocs | internal/controller/design_doc.go:107-173 | each group with a row in range has one value, its rows' values added up in order as sumAdd does, and there is no other; for integers that is the group's total |
| GroupedReduce.ArraysAdd | internal/adapter/reducer/sum.go:40-100 | arrays of numbers add item by item, a missing item counting as zero |
| GroupedReduce.OthersAdd | internal/adapter/reducer/sum.go:40-100 | numbers add, a number adds to the first item of an array, and anything else leaves the other as it is |
| GroupedReduce.TotalsExact | internal/controller/design_doc.go:107-169 | every group with a row has one total, of exactly its rows, and there is no other |
| GroupedReduce.TotalsConserve | internal/controller/design_doc.go:107-169 | the group totals add up to the ungrouped sum at every level |
| GroupedReduce.TotalsRegroup | internal/controller/design_doc.go:107-169 | grouping the groups of a finer level gives the coarser level's groups |
| Collation.CollationIsTotalPreorder | pkg/model/view_key_cmp.go:26-75 | key order is reflexive, total, sign-antisymmetric and transitive on arbitrarily nested arrays |
| Collation.TypesInOrder | pkg/model/view_key_cmp.go:77-95 | null comes before booleans, then numbers, strings, arrays and objects |
| Collation.ValuesInOrder | pkg/model/view_key_cmp.go:26-56 | false comes before true, numbers in the order of the integers, strings in byte order |
| Collation.ArraysInOrder | pkg/model/view_key_cmp.go:57-71 | the first item that differs decides between arrays, and a proper prefix comes first |
| Collation.NumbersInRange | internal/controller/design_doc.go:121-134 | which integers a view range selects, in the order of the integers, for both directions, the end included or not |
| Collation.OpenRanges | internal/controller/design_doc.go:121-134 | a missing bound does not restrict, and a bound given is compared with every key, of whatever type |
| Collation.EqualIsAlike | pkg/model/view_key_cmp.go:26-75 | two keys compare equal exactly when they differ at most inside objects, however deep in arrays |
| Collation.ReversedRange | internal/handler/db_view.go:358-386 | walked the other way with its bounds swapped, a range selects the same keys if and only if the end is included, there are no bounds, or the bounds leave no room for one of them |
| Lucene.ParsesBack | internal/adapter/index/lucene_query.go:128-292 | a query printed with the brackets it needs, OR or nothing between disjuncts, parses to itself |
| Lucene.TokensBack | internal/adapter/index/lucene_query.go:69-122 | tokens written as text are read back, and a terminator |
| Lucene.TightBrackets | internal/adapter/index/lucene_query.go:69-122 | brackets need no blanks around them to be read |
| Lucene.SearchFindsQuery | internal/adapter/index/lucene_query.go:27-45 | the text of a query, trimmed, tokenized and parsed, is the query |
| Lucene.TrimmedParts | internal/adapter/index/lucene_query.go:27-28 | trimming takes white space from both ends and nothing else |
| Lucene.ParseSearch | internal/adapter/index/lucene_query.go:27-45 | the input is trimmed; a blank one matches everything, any other is parsed as its tokens |
| Adjacency.AdjacentIsOr | internal/adapter/index/lucene_query.go:23-26 | wherever one term follows another, in any tokens at any depth: leaving out the OR between the two gives a query exactly when the OR does, and then the same one if and only if the first is no word ending in a colon or the second is no phrase |
| Adjacency.NeighboursAreEither | internal/adapter/index/lucene_query.go:171-203 | any two queries side by side are their disjunction exactly when they do not clash so, and always with an OR |
| Adjacency.OrCounts | internal/adapter/index/lucene_query.go:243-292 | a parsed query has as many field phrases as the tokens read have words ending in a colon right before a phrase |
| Attachments.RefRoundTrip | internal/adapter/storage/db_attachment.go:46-57 | an encoded count is decoded to itself |
| Attachments.PutAttachment | internal/adapter/storage/db_attachment.go:135-185 | the transaction commits counts and document together, or nothing, and says which blob to remove, none if the commit fails |
| Attachments.DeleteAttachment | internal/adapter/storage/db_attachment.go:187-232 | likewise for a deletion |
| Blobs.PutAttachmentDoes | internal/adapter/storage/db_attachment.go:135-185 | a put finds no document, is a conflict exactly if a revision is given that is not the document's, or leaves the name with the new digest and nothing else changed; that digest is counted once more, the replaced one once less, which is the blob removed exactly if that was its last use |
| Blobs.DeleteAttachmentDoes | internal/adapter/storage/db_attachment.go:187-232 | likewise for a deletion: not found exactly if there is no such document or attachment; the name goes, its digest is counted once less and removed if that was its last use |
| Blobs.ReattachedMiscounts | internal/adapter/storage/db_attachment.go:139-152 | a put keeps an exact count exact if and only if it does not put the digest under the name where it stands |
| Attachments.BlobsSafe | internal/adapter/storage/db_attachment.go:71-96 | over any run, failed commits included, no digest is counted below its use, and a removed blob is one no document refers to afterwards |
| Attachments.FreshBlobsSafe | internal/adapter/storage/db_attachment.go:71-96 | the same from an empty database on |

## Left out

- Overlapping transactions (the engine commits against a newer state without reading again) and the same ID twice in one transaction: transactions are serial, a batch's IDs distinct.
- Counters: sequences are 64 bits and the theorems about runs ask that they fit; generations and row counts are unbounded integers, where Go's wrap around or are clamped by `Atoi`.
- Histories: cut at 1000 entries as in the source, but `Convergence` is about histories within the cap.
- IDs: no NUL, not empty, under 65536 bytes; Mango encodings under 65536 bytes each. Bucket names are distinct by construction. Values are never too large for bbolt.
- ConflictWriters.ReplicationKeeps: deliveries to `_local` IDs, or with a revision that is its own ancestor or does not head its history, are not covered; the plan models them, the invariant is not claimed.
- Runs.ReachableInv: a leaf entry at the winner's key has the winner's revision, but that its content is the winner's is not claimed, since a hash may repeat.
- Finds.IndexRefinesScan: without a limit, with skip or bookmark (`Answers` says what either gives then), or with an `$elemMatch`, `$allMatch` or `$keyMapMatch` group (a failure in the model), nothing is claimed: the scan's skip counts raw entries, the index's counts matches.
- Queries.FindDocs: the order is any function of the matches, and the `use_index` hint any test of an index.
- Queries.BestMangoIndex: Go ranges over the index map in any order; the model takes the indices in one order, and the theorems hold for any of them.
- Attachments.BlobsSafe: blob files, decoding of inline data and the `md5-` prefix are left out; `_attachments` in a read is reduced to its names; counts are below 2^63.
- Replication.CheckpointSound: the source meets the peer contract; for a database of this program `LocalSource.LocalMeetsContract` says when. Session IDs are distinct numbers, checkpoint writes land or are lost as a whole.
- Replication.OneShot: `LocalDB.BulkGet` asks document by document and skips what it cannot read; the model's source returns what it has.
- Values: numbers are integers. Floats, mixed int and float sums, `_stats` and HyperLogLog are not modelled.
- View rows that cannot be encoded, script errors, the map function's own failure: a map function returns its rows.
- A fixed set of indices: creating one while its design document is written is covered only as the start of `Rebuilds.RebuildComplete`.
- External search, HTTP, authentication, scheduling of replications, long polling, compaction: no state this model is about.
