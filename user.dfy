/** A registered user: credentials, an owned wallet and a one-slot
    notification pipeline feeding an append-only history. */
module Users {
  import opened Common
  import opened Wallets

  class User {
    const username: string
    const password: string
    const wallet: Wallet
    var notifications: seq<string>
    var curNotification: Option<string>

    /** A user with a fresh empty wallet, no history and nothing pending. */
    constructor (username: string, password: string)
      ensures this.username == username && this.password == password
      ensures fresh(wallet) && wallet.Valid() && wallet.Balanced() && wallet.Accounted()
      ensures wallet.transactions == [] && wallet.categories == map[] && wallet.totalBalance == 0
      ensures notifications == [] && curNotification == None
    {
      this.username := username;
      this.password := password;
      wallet := new Wallet();
      notifications := [];
      curNotification := None;
    }

    /** Plain equality with the stored password. */
    function Authenticate(password: string): (ok: bool)
      ensures ok <==> password == this.password
    {
      this.password == password
    }

    /** Overwrites the pending slot; a notification still pending is lost. */
    method AddNotification(notification: string)
      modifies this
      ensures curNotification == Some(notification)
      ensures notifications == old(notifications)
    {
      curNotification := Some(notification);
    }

    /** Destructive read of the pending slot: the pending notification, if
        any, is returned and appended to the history, and the slot is cleared. */
    method GetLastNotification() returns (n: Option<string>)
      modifies this
      ensures n == old(curNotification)
      ensures curNotification == None
      ensures notifications == old(notifications) + Elements(n)
    {
      if curNotification.Some? {
        notifications := notifications + [curNotification.value];
      }
      n := curNotification;
      curNotification := None;
    }
  }
}
