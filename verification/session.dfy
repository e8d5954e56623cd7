/** The two pieces of App.tsx navigation state with rules of their own:
    category shortcuts into the listing and the demo admin login. */
module Session {

  import opened Optional
  import opened Types
  import opened Seqs
  import CatalogView

  /** `navigateToProducts(category)`: a non-empty category replaces the whole
      filter record with just that category; otherwise the filters stay.
      The page always becomes the listing. */
  function NavigateToProducts(f: Filter, category: Option<string>): (r: Filter)
    ensures category.Some? && category.value != "" ==> r == NoFilter.(category := category)
    ensures category.None? || category.value == "" ==> r == f
  {
    if category.Some? && category.value != "" then Filter(category, None, None, None, None) else f
  }

  /** After a category shortcut with an empty search, the listing shows
      exactly that category's items in catalog order. */
  lemma {:induction false} ShortcutShowsCategory(c: seq<Saree>, f: Filter, cat: string)
    requires cat != ""
    ensures var v := CatalogView.ComputeView(c, "", NavigateToProducts(f, Some(cat)));
      forall x :: x in v <==> x in c && CategoryName(x.category) == cat
  {
  }

  const AdminUsername: string := "admin"
  const AdminPassword: string := "admin123"

  datatype AdminUser = AdminUser(username: string, role: string, permissions: seq<string>)

  const AdminPermissions: seq<string> := ["view_dashboard", "manage_products", "manage_orders", "view_customers"]

  /** `handleAdminLogin`: the literal demo credentials give a super admin,
      anything else gives the error message. */
  function AdminLogin(username: string, password: string): (r: Result<AdminUser, string>)
    ensures r.Success? <==> username == AdminUsername && password == AdminPassword
    ensures r.Success? ==> r.value == AdminUser(username, "Super Admin", AdminPermissions)
    ensures r.Failure? ==> r.error == "Invalid credentials. Use admin/admin123 for demo."
  {
    if username == AdminUsername && password == AdminPassword then
      Success(AdminUser(username, "Super Admin", AdminPermissions))
    else Failure("Invalid credentials. Use admin/admin123 for demo.")
  }
}
