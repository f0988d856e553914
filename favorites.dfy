/**
 * `updateFavorite` of server/controllers/userController.js: the user's private
 * `favorites` list is created when absent, then the movie id is appended when it is
 * not listed and filtered out when it is.
 */
module Favorites {
  import opened Wrappers
  import opened Lists

  /** The private metadata of a user record; `favorites` is absent until first written. */
  class UserMetadata {
    var favorites: Option<seq<string>>

    constructor(favorites0: Option<seq<string>>)
      ensures favorites == favorites0
    {
      favorites := favorites0;
    }

    /** `updateFavorite` for this user: the list exists afterwards and `movieId` is toggled in it. */
    method UpdateFavorite(movieId: string)
      modifies this
      ensures favorites.Some? && favorites.value == Toggle(old(favorites).GetOr([]), movieId)
      ensures movieId in favorites.value <==> movieId !in old(favorites).GetOr([])
      ensures movieId !in old(favorites).GetOr([]) ==> favorites.value == old(favorites).GetOr([]) + [movieId]
      ensures movieId in old(favorites).GetOr([]) ==>
        multiset(favorites.value) == multiset(old(favorites).GetOr([]))[movieId := 0]
      ensures NoDuplicates(old(favorites).GetOr([])) ==> NoDuplicates(favorites.value)
    {
      if favorites.None? {
        favorites := Some([]);
      }
      var list := favorites.value;
      if movieId !in list {
        favorites := Some(list + [movieId]);
      } else {
        favorites := Some(RemoveAll(list, movieId));
        RemoveAllContents(list, movieId);
      }
      if NoDuplicates(list) {
        ToggleNoDuplicates(list, movieId);
      }
    }
  }

  /** Two clicks on a movie that is not a favourite leave the list as it was. */
  method UpdateFavoriteTwice(user: UserMetadata, movieId: string)
    requires user.favorites.Some? && movieId !in user.favorites.value
    modifies user
    ensures user.favorites == old(user.favorites)
  {
    ghost var before := user.favorites.value;
    user.UpdateFavorite(movieId);
    user.UpdateFavorite(movieId);
    ToggleTwiceAbsent(before, movieId);
  }
}
