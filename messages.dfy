/** The translation keys the controllers pass to `__()`; their translated
    text is not modelled. */
module Messages {
  const POSTS_RETRIEVED: string := "messages.posts_retrieved"
  const BLOG_RETRIEVED: string := "messages.blog_retrieved"
  const POST_RETRIEVED: string := "messages.post_retrieved"
  const POST_NOT_FOUND: string := "messages.post_not_found"
  const USER_NOT_FOUND: string := "messages.user_not_found"
  const CATEGORIES_RETRIEVED: string := "messages.categories_retrieved"
  const CATEGORY_RETRIEVED: string := "messages.category_retrieved"
  const CATEGORY_NOT_FOUND: string := "messages.category_not_found"
  const TAGS_RETRIEVED: string := "menu.tags_retrieved"
  const TAG_RETRIEVED: string := "messages.tag_retrieved"
  const TAG_NOT_FOUND: string := "messages.tag_not_found"
  const MENU_SUCCESS_LIST: string := "menu.success_list"
}
