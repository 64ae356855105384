/** The persisted user selection of the daily-usage chart
    (`st.session_state.selected_users`): set to the defaults only when
    nothing is stored yet, overwritten by the select-all and clear-all
    buttons, and sanitised against the current options before it is shown. */
module Selection {
  import opened Common

  /** `[u for u in stored if u in options]`: the stored users that are still
      options, in stored order. */
  function ValidDefault(stored: seq<string>, options: seq<string>): (shown: seq<string>)
    ensures IsSubsequence(shown, stored)
    ensures forall u :: u in shown <==> u in stored && u in options
    ensures |shown| <= |stored|
  {
    if stored == [] then []
    else
      var rest := ValidDefault(stored[1..], options);
      assert forall u :: u in stored <==> u == stored[0] || u in stored[1..] by {
        assert stored == [stored[0]] + stored[1..];
      }
      if stored[0] in options then [stored[0]] + rest
      else
        SubsequenceSkip(rest, stored);
        rest
  }

  /** A subsequence of the tail is a subsequence of the whole. */
  lemma {:induction false} SubsequenceSkip<T>(a: seq<T>, b: seq<T>)
    requires b != [] && IsSubsequence(a, b[1..])
    ensures IsSubsequence(a, b)
    decreases |b|, 0
  {
    if a != [] && a[0] == b[0] {
      SubsequenceTail(a, b[1..]);
    }
  }

  /** Dropping the first element keeps a subsequence. */
  lemma {:induction false} SubsequenceTail<T>(a: seq<T>, c: seq<T>)
    requires a != [] && IsSubsequence(a, c)
    ensures IsSubsequence(a[1..], c)
    decreases |c|, 1
  {
    if a[1..] != [] {
      if a[0] == c[0] {
        SubsequenceSkip(a[1..], c);
      } else {
        SubsequenceTail(a, c[1..]);
        SubsequenceSkip(a[1..], c);
      }
    }
  }

  /** Sanitising a selection whose users are all options changes nothing. */
  lemma {:induction false} ValidDefaultKeepsOptions(stored: seq<string>, options: seq<string>)
    requires forall u :: u in stored ==> u in options
    ensures ValidDefault(stored, options) == stored
  {
    if stored != [] {
      assert stored[0] in stored;
      assert forall u :: u in stored[1..] ==> u in stored;
      ValidDefaultKeepsOptions(stored[1..], options);
    }
  }

  lemma {:induction false} ValidDefaultAppend(stored: seq<string>, u: string, options: seq<string>)
    ensures ValidDefault(stored + [u], options)
      == ValidDefault(stored, options) + (if u in options then [u] else [])
  {
    if stored != [] {
      assert (stored + [u])[1..] == stored[1..] + [u];
      ValidDefaultAppend(stored[1..], u, options);
    }
  }

  /** The session-state slot, absent until a script run first sets it. */
  class SelectionState {
    var stored: Option<seq<string>>

    constructor ()
      ensures stored == None
    {
      stored := None;
    }

    /** `if "selected_users" not in st.session_state: ... = default_users`. */
    method InitIfAbsent(defaults: seq<string>)
      modifies this
      ensures old(stored).Some? ==> stored == old(stored)
      ensures old(stored).None? ==> stored == Some(defaults)
    {
      if stored.None? {
        stored := Some(defaults);
      }
    }

    /** The select-all button: every sorted user. */
    method SelectAll(sortedUsers: seq<string>)
      modifies this
      ensures stored == Some(sortedUsers)
    {
      stored := Some(sortedUsers);
    }

    /** The clear-all button: nobody. */
    method ClearAll()
      modifies this
      ensures stored == Some([])
    {
      stored := Some([]);
    }

    /** The multiselect's default: the stored users still among the options. */
    method DefaultShown(options: seq<string>) returns (shown: seq<string>)
      requires stored.Some?
      ensures shown == ValidDefault(stored.value, options)
    {
      var users := stored.value;
      shown := [];
      for i := 0 to |users|
        invariant shown == ValidDefault(users[..i], options)
      {
        ValidDefaultAppend(users[..i], users[i], options);
        assert users[..i + 1] == users[..i] + [users[i]];
        if users[i] in options {
          shown := shown + [users[i]];
        }
      }
      assert users[..|users|] == users;
    }
  }

  /** One run of the main page's user picker: initialise when absent, apply
      the buttons that were pressed, then show the sanitised selection. */
  method RunUserPicker(state: SelectionState, sortedUsers: seq<string>, defaults: seq<string>,
                       selectAll: bool, clearAll: bool) returns (shown: seq<string>)
    modifies state
    ensures forall u :: u in shown ==> u in sortedUsers
    ensures clearAll ==> shown == [] && state.stored == Some([])
    ensures selectAll && !clearAll ==> shown == sortedUsers && state.stored == Some(sortedUsers)
    ensures !selectAll && !clearAll ==>
      state.stored == if old(state.stored).None? then Some(defaults) else old(state.stored)
    ensures !selectAll && !clearAll && old(state.stored).None? ==> shown == ValidDefault(defaults, sortedUsers)
    ensures !selectAll && !clearAll && old(state.stored).Some? ==> shown == ValidDefault(old(state.stored).value, sortedUsers)
  {
    state.InitIfAbsent(defaults);
    if selectAll {
      state.SelectAll(sortedUsers);
    }
    if clearAll {
      state.ClearAll();
    }
    shown := state.DefaultShown(sortedUsers);
    if selectAll && !clearAll {
      ValidDefaultKeepsOptions(sortedUsers, sortedUsers);
    }
  }
}
