/** `document_lock`: a table of weak references to the mutexes that serialise writers of
    one document, swept of dead entries once it holds 4096. */
module LockRegistry {
  import opened Domain
  import Lexical
  import Protocol

  const SWEEP_AT: nat := 4_096

  /** The key of the table: the three ids joined by NUL. */
  function LockId(key: DocumentKey): string {
    key.app + "\0" + key.community + "\0" + key.document
  }

  class DocumentLocks {
    /** The weak references, by document. */
    var locks: map<string, nat>
    /** How many handles hold each mutex; a mutex nobody holds is dead. */
    var strong: map<nat, nat>
    /** The number of the next mutex to be made. */
    var next: nat
    /** The document each mutex was made for. */
    ghost var owner: map<nat, string>

    predicate Live(mutex: nat)
      reads this
    {
      mutex in strong && strong[mutex] > 0
    }

    /** A live mutex is the one the table names for its document. */
    ghost predicate Valid()
      reads this
    {
      && owner.Keys == strong.Keys
      && (forall id :: id in locks ==> locks[id] in strong && owner[locks[id]] == id)
      && (forall m :: Live(m) ==> owner[m] in locks && locks[owner[m]] == m)
      && (forall m :: m in strong ==> m < next)
    }

    /** The entries whose mutex is still held. */
    function LiveEntries(): map<string, nat>
      reads this
    {
      map id | id in locks && Live(locks[id]) :: locks[id]
    }

    constructor ()
      ensures Valid() && forall m :: !Live(m)
    {
      locks, strong, owner, next := map[], map[], map[], 0;
    }

    /** `retain(strong_count > 0)` */
    method Sweep()
      requires Valid()
      modifies this`locks
      ensures Valid() && locks == old(LiveEntries())
    {
      locks := LiveEntries();
    }

    /** `Arc::new(Mutex::new(()))`, entered in the table. */
    method Create(id: string) returns (mutex: nat)
      requires Valid() && (id in locks ==> !Live(locks[id]))
      modifies this
      ensures Valid() && mutex !in old(strong)
      ensures strong == old(strong)[mutex := 1] && owner == old(owner)[mutex := id] && locks == old(locks)[id := mutex]
    {
      mutex := next;
      next := next + 1;
      strong := strong[mutex := 1];
      owner := owner[mutex := id];
      locks := locks[id := mutex];
    }

    /** The live mutex of the document if there is one, a new one otherwise. No other
        mutex is touched. */
    method Acquire(id: string) returns (mutex: nat)
      requires Valid()
      modifies this
      ensures Valid() && mutex in owner && owner[mutex] == id
      ensures forall m :: old(Live(m)) && old(owner)[m] == id ==> mutex == m
      ensures strong == old(strong)[mutex := (if mutex in old(strong) then old(strong)[mutex] else 0) + 1]
      ensures mutex !in old(strong) || old(Live(mutex))
      ensures locks == if mutex in old(strong) then old(locks)
                       else (if |old(locks)| >= SWEEP_AT then old(LiveEntries()) else old(locks))[id := mutex]
      ensures forall m :: m in old(owner) ==> m in owner && owner[m] == old(owner)[m]
    {
      if id in locks && Live(locks[id]) {
        mutex := locks[id];
        strong := strong[mutex := strong[mutex] + 1];
        return;
      }
      if |locks| >= SWEEP_AT {
        Sweep();
      }
      mutex := Create(id);
    }

    /** A handle is dropped. */
    method Release(mutex: nat)
      requires Valid() && Live(mutex)
      modifies this`strong
      ensures Valid() && strong == old(strong)[mutex := old(strong)[mutex] - 1]
    {
      strong := strong[mutex := strong[mutex] - 1];
    }

    /** There are never two live mutexes for one document. */
    lemma OneLiveMutex(a: nat, b: nat)
      requires Valid() && Live(a) && Live(b) && owner[a] == owner[b]
      ensures a == b
    {
    }
  }

  // ----------------------------------------------------------------- the keys

  /** An id without control characters holds no NUL. */
  predicate Printable(key: DocumentKey) {
    '\0' !in key.app && '\0' !in key.community && '\0' !in key.document
  }

  /** Two documents share a lock only if they are one document. */
  lemma LockIdInjective(k: DocumentKey, k': DocumentKey)
    requires Printable(k) && Printable(k') && LockId(k) == LockId(k')
    ensures k == k'
  {
    assert LockId(k) == k.app + "\0" + (k.community + "\0" + k.document);
    assert LockId(k') == k'.app + "\0" + (k'.community + "\0" + k'.document);
    Lexical.FirstSeparator(k.app, k.community + "\0" + k.document, k'.app, k'.community + "\0" + k'.document, '\0');
    Lexical.FirstSeparator(k.community, k.document, k'.community, k'.document, '\0');
  }

  function PlanningLockKey(community: string): DocumentKey {
    DocumentKey(PLANNING_NAMESPACE, community, "planning/__profile_lock")
  }

  function ToolkitLockKey(app: string, community: string): DocumentKey {
    DocumentKey(app, community, "toolkit/__local-write-lock")
  }

  /** The documents the toolkit handlers write. */
  predicate ToolkitDocument(document: string) {
    exists kind :: kind in ["toolkit/concepts/", "toolkit/tools/", "toolkit/assertions/", "toolkit/reviews/"] &&
        kind <= document
  }

  /** The profile lock a planning put holds is never the document lock it takes next. */
  lemma PlanningLocksDiffer(community: string, row: PlanningRow)
    requires Printable(PlanningLockKey(community))
    requires Printable(DocumentKey(PLANNING_NAMESPACE, community, Protocol.PlanDocument(row)))
    ensures LockId(PlanningLockKey(community)) != LockId(DocumentKey(PLANNING_NAMESPACE, community,
              Protocol.PlanDocument(row)))
  {
    var outer := PlanningLockKey(community);
    var inner := DocumentKey(PLANNING_NAMESPACE, community, Protocol.PlanDocument(row));
    assert outer.document[9] == '_' && inner.document[9] != '_';
    if LockId(outer) == LockId(inner) {
      LockIdInjective(outer, inner);
    }
  }

  /** Nor is the toolkit lock one of the documents written under it. */
  lemma ToolkitLocksDiffer(app: string, community: string, document: string)
    requires Printable(ToolkitLockKey(app, community)) && Printable(DocumentKey(app, community, document)) &&
              ToolkitDocument(document)
    ensures LockId(ToolkitLockKey(app, community)) != LockId(DocumentKey(app, community, document))
  {
    assert ToolkitLockKey(app, community).document[8] == '_' && document[8] != '_';
    if LockId(ToolkitLockKey(app, community)) == LockId(DocumentKey(app, community, document)) {
      LockIdInjective(ToolkitLockKey(app, community), DocumentKey(app, community, document));
    }
  }
}
