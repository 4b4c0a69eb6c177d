/** What books hold and what a tracker holds, as maps from order ids, and when changes keep them equal. */
module Holdings {
  import opened FixTypes

  /** The facts about a resting order that a book and the tracker must agree on. */
  datatype Holding = Holding(account: string, instrument: string, side: Side, qty: int)

  type Held = map<string, Holding>

  /** Each book's holdings name its own instrument. */
  ghost predicate Labelled(books: map<string, Held>) {
    forall i, id :: i in books && id in books[i] ==> books[i][id].instrument == i
  }

  /** The tracker holds everything the books hold, as they hold it. */
  ghost predicate Covers(books: map<string, Held>, tracker: Held) {
    forall i, id :: i in books && id in books[i] ==> id in tracker && tracker[id] == books[i][id]
  }

  /** The tracker holds exactly the union of the books. */
  ghost predicate Agree(books: map<string, Held>, tracker: Held) {
    && Covers(books, tracker)
    && (forall id :: id in tracker ==> tracker[id].instrument in books && id in books[tracker[id].instrument])
  }

  /** No book other than the one of `i` holds `id`. */
  ghost predicate NotElsewhere(books: map<string, Held>, i: string, id: string) {
    forall j :: j in books && j != i ==> id !in books[j]
  }

  lemma Covered(books: map<string, Held>, tracker: Held, j: string, id: string)
    requires Covers(books, tracker) && j in books && id in books[j]
    ensures id in tracker && tracker[id] == books[j][id]
  {
  }

  /** Two books never hold the same id while they agree with one tracker. */
  lemma HeldOnce(books: map<string, Held>, tracker: Held, i: string, id: string)
    requires Labelled(books) && Agree(books, tracker) && i in books && id in books[i]
    ensures NotElsewhere(books, i, id)
  {
    assert tracker[id] == books[i][id];
    forall j | j in books && j != i
      ensures id !in books[j]
    {
      if id in books[j] {
        Covered(books, tracker, j, id);
      }
    }
  }

  /** Recording the same holding in one book and in the tracker keeps them equal iff no other book holds the id. */
  lemma PutAgrees(books: map<string, Held>, tracker: Held, i: string, id: string, v: Holding)
    requires Labelled(books) && Agree(books, tracker) && i in books && v.instrument == i
    ensures Agree(books[i := books[i][id := v]], tracker[id := v]) <==> NotElsewhere(books, i, id)
  {
    var after: map<string, Held> := books[i := books[i][id := v]];
    if Agree(after, tracker[id := v]) {
      forall j | j in books && j != i
        ensures id !in books[j]
      {
        if id in books[j] {
          Covered(after, tracker[id := v], j, id);
        }
      }
    }
    if NotElsewhere(books, i, id) {
      forall j, x | j in after && x in after[j]
        ensures x in tracker[id := v] && tracker[id := v][x] == after[j][x]
      {
        assert j != i ==> x in books[j];
      }
      forall x | x in tracker && x != id
        ensures tracker[x].instrument in after && x in after[tracker[x].instrument]
      {
        assert x in books[tracker[x].instrument];
      }
    }
  }

  /** The same for forgetting an id. */
  lemma DropAgrees(books: map<string, Held>, tracker: Held, i: string, id: string)
    requires Labelled(books) && Agree(books, tracker) && i in books
    ensures Agree(books[i := books[i] - {id}], tracker - {id}) <==> NotElsewhere(books, i, id)
  {
    var after: map<string, Held> := books[i := books[i] - {id}];
    if Agree(after, tracker - {id}) {
      forall j | j in books && j != i
        ensures id !in books[j]
      {
        if id in books[j] {
          Covered(after, tracker - {id}, j, id);
        }
      }
    }
    if NotElsewhere(books, i, id) {
      forall j, x | j in after && x in after[j]
        ensures x in tracker - {id} && (tracker - {id})[x] == after[j][x]
      {
        assert x in books[j];
      }
      forall x | x in tracker && x != id
        ensures tracker[x].instrument in after && x in after[tracker[x].instrument]
      {
        assert x in books[tracker[x].instrument];
      }
    }
  }

  /** Losing an id from one book alone breaks the agreement. */
  lemma LossDisagrees(books: map<string, Held>, tracker: Held, i: string, id: string)
    requires Labelled(books) && Agree(books, tracker) && i in books && id in books[i]
    ensures !Agree(books[i := books[i] - {id}], tracker)
  {
    var after: map<string, Held> := books[i := books[i] - {id}];
    assert id in tracker && tracker[id] == books[i][id];
    assert id !in after[i];
  }

  /** Different holdings under one id never agree. */
  lemma MismatchDisagrees(books: map<string, Held>, tracker: Held, i: string, id: string)
    requires i in books && id in books[i] && (id in tracker ==> tracker[id] != books[i][id])
    ensures !Agree(books, tracker)
  {
  }

  /** What the book of `i` itself holds does not matter to what is held elsewhere. */
  lemma ElsewhereIgnoresOwn(books: map<string, Held>, i: string, own: Held, id: string)
    ensures NotElsewhere(books[i := own], i, id) <==> NotElsewhere(books, i, id)
  {
    var after: map<string, Held> := books[i := own];
    assert forall j :: j in books && j != i ==> j in after && after[j] == books[j];
  }

  lemma RelabelOwn(books: map<string, Held>, i: string, own: Held)
    requires Labelled(books) && forall id :: id in own ==> own[id].instrument == i
    ensures Labelled(books[i := own])
  {
  }

  lemma PutBack(m: Held, id: string, v: Holding)
    ensures (m - {id})[id := v] == m[id := v]
  {
  }

  lemma OverwriteBook(books: map<string, Held>, i: string, first: Held, second: Held)
    ensures books[i := first][i := second] == books[i := second]
  {
  }

  /** Recording `w` in one book and `v` in the tracker: equal afterwards iff they are the same and the id is free. */
  lemma PutBothAgrees(books: map<string, Held>, tracker: Held, i: string, id: string, w: Holding, v: Holding)
    requires Labelled(books) && Agree(books, tracker) && i in books && v.instrument == i
    ensures Agree(books[i := books[i][id := w]], tracker[id := v]) <==> NotElsewhere(books, i, id) && w == v
  {
    if w == v {
      PutAgrees(books, tracker, i, id, v);
    } else {
      MismatchDisagrees(books[i := books[i][id := w]], tracker[id := v], i, id);
    }
  }

  /** An empty book disagrees with nothing. */
  lemma EmptyBookAgrees(books: map<string, Held>, tracker: Held, i: string)
    requires Agree(books, tracker) && i !in books
    ensures Agree(books[i := map[]], tracker)
  {
    var after: map<string, Held> := books[i := map[]];
    assert forall j :: j in books ==> after[j] == books[j];
  }
}
