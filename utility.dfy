/** `switchKey`: move a dictionary entry to another key. */
module Utility {

  /**
   * Removes the entry at `fromKey` and, if there was one, stores its value at
   * `toKey`. The dictionary is passed in and handed back (Swift `inout`).
   */
  method SwitchKey<T, U>(myDict: map<T, U>, fromKey: T, toKey: T) returns (r: map<T, U>)
    ensures fromKey in myDict ==> toKey in r && r[toKey] == myDict[fromKey]
    ensures fromKey in myDict && fromKey != toKey ==> fromKey !in r
    ensures fromKey !in myDict ==> r == myDict
    ensures fromKey == toKey ==> r == myDict
    ensures forall k :: k != fromKey && k != toKey ==> (k in r <==> k in myDict)
    ensures forall k :: k != fromKey && k != toKey && k in myDict ==> r[k] == myDict[k]
  {
    r := myDict;
    if fromKey in r {
      var entry := r[fromKey];
      r := r - {fromKey};
      r := r[toKey := entry];
    }
  }
}
