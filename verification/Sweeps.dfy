/** Loops that bring the rows of a table to a goal one at a time, in any order. */
module Sweeps {

  /** A sweep in progress: the rows still `pending` are as they were, the others are done. */
  function Midway<K, V>(before: map<K, V>, goal: map<K, V>, pending: set<K>): map<K, V>
    requires before.Keys == goal.Keys
  {
    map id | id in before :: if id in pending then before[id] else goal[id]
  }

  lemma MidwayStep<K, V>(before: map<K, V>, goal: map<K, V>, pending: set<K>, id: K)
    requires before.Keys == goal.Keys && id in pending && id in before
    ensures Midway(before, goal, pending)[id] == before[id]
    ensures Midway(before, goal, pending)[id := goal[id]] == Midway(before, goal, pending - {id})
  {
  }

  lemma MidwayStart<K, V>(before: map<K, V>, goal: map<K, V>, pending: set<K>)
    requires before.Keys == goal.Keys
    requires forall id | id in before && id !in pending :: goal[id] == before[id]
    ensures Midway(before, goal, pending) == before
    ensures Midway(before, goal, {}) == goal
  {
  }
}
