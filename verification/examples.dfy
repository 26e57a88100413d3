/** Worked instances of the extractor's behaviour. */
module Examples {
  import opened Records
  import opened Text
  import opened AppLinks
  import opened Reconciler

  /** 120 user ids make three batches of 50, 50 and 20. */
  lemma BatchesOf120(ids: seq<string>)
    requires |ids| == 120
    ensures |Batches(ids)| == 3
    ensures |Batches(ids)[0]| == 50 && |Batches(ids)[1]| == 50 && |Batches(ids)[2]| == 20
  {
    assert Batches(ids[100..]) == [ids[100..]];
    assert Batches(ids[50..]) == [ids[50..][..50]] + Batches(ids[100..]);
  }

  /** The logins `zoe`, `amy`, `bob` are reported as `amy`, `bob`, `zoe`. */
  lemma SortThreeLogins()
    ensures Sort(["zoe", "amy", "bob"]) == ["amy", "bob", "zoe"]
  {
    var s := ["amy", "bob", "zoe"];
    assert LexLe("amy", "bob") && LexLe("bob", "zoe") && LexLe("amy", "zoe");
    assert Sorted(s);
    assert multiset(s) == multiset(["zoe", "amy", "bob"]);
    SortedPermutationUnique(Sort(["zoe", "amy", "bob"]), s);
  }

  /** Links with statuses ACTIVE, SUSPENDED, ACTIVE resolve to the two active
      labels in their original order. */
  lemma ActiveOnly()
    ensures
      var links := [UserAppLink(App("a", "Salesforce", "ACTIVE")),
                    UserAppLink(App("b", "Jira", "SUSPENDED")),
                    UserAppLink(App("c", "Slack", "ACTIVE"))];
      Join(Separator, ActiveLabels(links)) == "Salesforce, Slack"
  {
  }
}
