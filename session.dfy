/**
 * The fields of the InstagramAPI object (api/InstagramAPI.kt:28-41). They sit
 * in their own class because both the request dispatcher (api/Request.kt) and
 * the API operations write them, and the dispatcher must not depend on the
 * operations that use it.
 */
module Session {
  import opened Wrappers
  import opened Strings
  import opened Json

  class Session {
    var username: string
    var password: string
    var deviceId: string
    var uuid: string
    var userId: string
    var token: string
    var rankToken: string
    var isLoggedIn: bool
    var lastJSON: Option<Reply>
    var lastResponse: Option<Response>   // lateinit: None until the first response
    var statusCode: int
    var totalRequests: int

    /** The request counter is a Kotlin Int. */
    predicate Valid()
      reads this
    {
      INT_MIN <= totalRequests <= INT_MAX
    }

    /** The initial values of the object's fields. */
    constructor()
      ensures Valid()
      ensures username == "username" && password == "password"
      ensures deviceId == "xxxx" && uuid == "xxxx"
      ensures userId == "" && token == "-" && rankToken == "-"
      ensures !isLoggedIn && lastJSON == None && lastResponse == None
      ensures statusCode == 0 && totalRequests == 0
    {
      username := "username";
      password := "password";
      deviceId := "xxxx";
      uuid := "xxxx";
      userId := "";
      token := "-";
      rankToken := "-";
      isLoggedIn := false;
      lastJSON := None;
      lastResponse := None;
      statusCode := 0;
      totalRequests := 0;
    }
  }

  /** `totalRequests += 1` on a Kotlin Int: wraps from the largest value to the smallest. */
  function IntSucc(n: int): (r: int)
    requires INT_MIN <= n <= INT_MAX
    ensures INT_MIN <= r <= INT_MAX
    ensures (r - (n + 1)) % 0x1_0000_0000 == 0
    ensures n < INT_MAX ==> r == n + 1
  {
    if n == INT_MAX then INT_MIN else n + 1
  }
}
