/** The admin gate of the dictionary commands. */
module Access {

  /** An empty admin list lets everybody in; otherwise only listed users. */
  function IsAdmin(admins: set<int>, user: int): (r: bool)
    ensures |admins| == 0 ==> r
    ensures |admins| != 0 ==> (r <==> user in admins)
  {
    admins == {} || user in admins
  }
}
