/**
 * The dedup store of main.go: the global `history` map from fingerprint to
 * the Unix second of the last alert, and `shouldNotify`, which suppresses a
 * fingerprint for 72 hours after it was last alerted.
 */
module Dedup {
  import opened Wrappers

  /** `dedupWindow`: 72 hours, in seconds. */
  const Window: int := 72 * 60 * 60

  /** `shouldNotify`'s answer for `key` at time `now`. */
  predicate Admits(history: map<string, int>, key: string, now: int) {
    key !in history || now - history[key] >= Window
  }

  /** The history after `shouldNotify(key)` at time `now`. */
  function Recorded(history: map<string, int>, key: string, now: int): map<string, int> {
    if Admits(history, key, now) then history[key := now] else history
  }

  /** An admitted key is stamped with `now`; a suppressed call changes nothing. */
  lemma RecordedStampsOnlyAdmitted(history: map<string, int>, key: string, now: int)
    ensures Admits(history, key, now) ==> key in Recorded(history, key, now) && Recorded(history, key, now)[key] == now
    ensures !Admits(history, key, now) ==> Recorded(history, key, now) == history
    ensures Recorded(history, key, now).Keys == history.Keys + {key}
  {
  }

  /**
   * No recorded timestamp ever goes down: an admitted key either was absent
   * or was stamped at least a window before `now`, whatever the clock did.
   */
  lemma RecordedKeepsTimestamps(history: map<string, int>, key: string, now: int)
    ensures forall k :: k in history ==> k in Recorded(history, key, now) && Recorded(history, key, now)[k] >= history[k]
  {
  }

  /**
   * Once admitted at `t`, the key stays suppressed at any time before `t`
   * plus the window, including times before `t` when the clock went back.
   */
  lemma SuppressedWithinWindow(history: map<string, int>, key: string, t: int, later: int)
    requires Admits(history, key, t)
    requires later < t + Window
    ensures !Admits(Recorded(history, key, t), key, later)
  {
  }

  /** Once admitted at `t`, the key is admitted again from exactly `t` plus the window on. */
  lemma ReadmittedAfterWindow(history: map<string, int>, key: string, t: int, later: int)
    requires Admits(history, key, t)
    requires later >= t + Window
    ensures Admits(Recorded(history, key, t), key, later)
  {
  }

  /** The dedup store: the in-memory history and the last snapshot written to disk. */
  class DedupStore {
    /** `history`: fingerprint to Unix seconds of its last alert. */
    var history: map<string, int>
    /** The contents of `history.json` as last written. */
    var snapshot: map<string, int>

    /**
     * `init`: start from the saved snapshot when it could be read, and from
     * an empty history otherwise.
     */
    constructor Load(saved: Option<map<string, int>>)
      ensures history == (if saved.Some? then saved.value else map[])
      ensures snapshot == history
    {
      history := if saved.Some? then saved.value else map[];
      snapshot := history;
    }

    /**
     * `shouldNotify`: a key seen less than a window ago is suppressed and
     * nothing changes; otherwise the key is stamped with `now`, the history
     * is written out, and the answer is true.
     */
    method ShouldNotify(hash: string, now: int) returns (ok: bool)
      modifies this
      ensures hash !in old(history) ==> ok
      ensures hash in old(history) ==> (ok <==> now - old(history)[hash] >= Window)
      ensures ok ==> history == old(history)[hash := now] && snapshot == history
      ensures !ok ==> history == old(history) && snapshot == old(snapshot)
      ensures ok == Admits(old(history), hash, now)
      ensures history == Recorded(old(history), hash, now)
    {
      if hash in history {
        var ts := history[hash];
        if now - ts < Window {
          return false;
        }
      }
      history := history[hash := now];
      snapshot := history;
      return true;
    }
  }
}
