/** The notification list the coordinator's effects drive. */
module Notifier {
  import opened Approval
  import opened Coordinator
  import opened CoordinatorViews

  class Notifications {
    var posted: seq<Request>

    constructor ()
      ensures posted == []
    {
      posted := [];
    }

    /** Keeps every notification but those of one id, in order. */
    method Retain(id: string)
      modifies this
      ensures posted == Without(old(posted), id)
    {
      var all, k := posted, 0;
      posted := [];
      while k < |all|
        invariant 0 <= k <= |all| && posted == Without(all[..k], id)
      {
        assert all[..k + 1][..k] == all[..k];
        if all[k].id != id {
          posted := posted + [all[k]];
        }
        k := k + 1;
      }
      assert all[..k] == all;
    }

    method Post(req: Request)
      modifies this
      ensures posted == Without(old(posted), req.id) + [req]
    {
      Retain(req.id);
      posted := posted + [req];
    }

    method Withdraw(id: string)
      modifies this
      ensures posted == Without(old(posted), id)
    {
      Retain(id);
    }

    /** The effects of a step, or of a whole run, in order. */
    method Follow(fx: seq<Effect>)
      modifies this
      ensures posted == Shown(old(posted), fx)
    {
      hide Without;
      var k := 0;
      while k < |fx|
        invariant 0 <= k <= |fx| && posted == Shown(old(posted), fx[..k])
      {
        assert fx[..k + 1][..k] == fx[..k];
        match fx[k] {
          case Posted(req) => Post(req);
          case Withdrawn(id) => Withdraw(id);
          case _ =>
        }
        k := k + 1;
      }
      assert fx[..k] == fx;
    }
  }
}
