/** The fixed shape of the generated Android project: the directories
    createAndroidStructure creates, the files createGradleFiles and
    createManifest write, and the text templates they fill in. Relative paths
    are given as the segments java.io.File reads them as. */
module Layout {
  import opened Text
  import opened FileSystem
  import opened Request

  const JavaRoot: Path := ["app", "src", "main", "java"]

  /** "app/src/main/java", spelled out segment by segment. */
  const JavaRootName: string := "app" + "/" + "src" + "/" + "main" + "/" + "java"

  /** new File(base, "app/src/main/java/" + pkg.replace(".", "/")), relative to base. */
  function SourceDir(pkg: string): Path
  {
    Segments(JavaRootName + "/" + PackagePath(pkg))
  }

  /** The package directory lies below app/src/main/java, one level per package name part. */
  lemma SourceDirUnderJavaRoot(pkg: string)
    ensures SourceDir(pkg) == JavaRoot + Segments(PackagePath(pkg))
  {
    SegmentsConcat(JavaRootName, PackagePath(pkg));
    SegmentsConcat("app" + "/" + "src" + "/" + "main", "java");
    SegmentsConcat("app" + "/" + "src", "main");
    SegmentsConcat("app", "src");
    SegmentsOfName("app");
    SegmentsOfName("src");
    SegmentsOfName("main");
    SegmentsOfName("java");
  }

  /** For a dotted name of plain parts the directory has exactly those parts. */
  lemma SourceDirOfDottedName(parts: seq<string>)
    requires forall i | 0 <= i < |parts| :: IsName(parts[i]) && '.' !in parts[i]
    ensures SourceDir(JoinWith(parts, '.')) == JavaRoot + parts
  {
    SourceDirUnderJavaRoot(JoinWith(parts, '.'));
    PackagePathOfJoin(parts);
    SegmentsOfJoin(parts);
  }

  /** The twelve directories of createAndroidStructure, in its order. */
  function ScaffoldDirs(pkg: string): (r: seq<Path>)
    ensures |r| == 12 && r[0] == SourceDir(pkg)
  {
    [ SourceDir(pkg),
      ["app", "src", "main", "res", "layout"],
      ["app", "src", "main", "res", "values"],
      ["app", "src", "main", "res", "drawable"],
      ["app", "src", "main", "res", "mipmap-hdpi"],
      ["app", "src", "main", "res", "mipmap-mdpi"],
      ["app", "src", "main", "res", "mipmap-xhdpi"],
      ["app", "src", "main", "res", "mipmap-xxhdpi"],
      ["app", "src", "main", "assets"],
      ["app", "build"],
      ["app", "libs"],
      ["gradle", "wrapper"] ]
  }

  /** Each relative path below base. */
  function Below(base: Path, rel: seq<Path>): (r: seq<Path>)
    ensures |r| == |rel|
    ensures forall i | 0 <= i < |rel| :: r[i] == base + rel[i]
  {
    seq(|rel|, i requires 0 <= i < |rel| => base + rel[i])
  }

  const RootBuildFile: Path := ["build.gradle"]
  const AppBuildFile: Path := ["app", "build.gradle"]
  const SettingsFile: Path := ["settings.gradle"]
  const PropertiesFile: Path := ["gradle.properties"]
  const ManifestFile: Path := ["app", "src", "main", "AndroidManifest.xml"]

  // ------------------------------------------------------------ templates

  const RootGradle: string :=
    "buildscript {\n" +
    "    repositories {\n" +
    "        google()\n" +
    "        mavenCentral()\n" +
    "    }\n" +
    "    dependencies {\n" +
    "        classpath 'com.android.tools.build:gradle:7.4.0'\n" +
    "    }\n" +
    "}\n\n" +
    "allprojects {\n" +
    "    repositories {\n" +
    "        google()\n" +
    "        mavenCentral()\n" +
    "    }\n" +
    "}"

  const AppGradleHead: string :=
    "plugins {\n" +
    "    id 'com.android.application'\n" +
    "}\n\n" +
    "android {\n" +
    "    "

  const AppGradleMiddle: string :=
    "\n" +
    "    compileSdk 33\n\n" +
    "    defaultConfig {\n" +
    "        "

  const AppGradleTail: string :=
    "\n" +
    "        minSdk 21\n" +
    "        targetSdk 33\n" +
    "        versionCode 1\n" +
    "        versionName \"1.0\"\n" +
    "    }\n\n" +
    "    buildTypes {\n" +
    "        release {\n" +
    "            minifyEnabled false\n" +
    "        }\n" +
    "    }\n" +
    "}\n\n" +
    "dependencies {\n" +
    "}"

  function NamespaceLine(pkg: string): string { "namespace '" + pkg + "'" }
  function ApplicationIdLine(pkg: string): string { "applicationId \"" + pkg + "\"" }

  /** app/build.gradle: the module descriptor, namespace and applicationId both pkg. */
  function AppGradle(pkg: string): string
  {
    AppGradleHead + NamespaceLine(pkg) + AppGradleMiddle + ApplicationIdLine(pkg) + AppGradleTail
  }

  /** settings.gradle. */
  function SettingsGradle(appName: string): string
  {
    "rootProject.name = '" + appName + "'\ninclude ':app'"
  }

  const GradleProperties: string := "org.gradle.jvmargs=-Xmx2048m\nandroid.useAndroidX=true"

  const ManifestHead: string :=
    "<?xml version=\"1.0\" encoding=\"utf-8\"?>\n" +
    "<manifest xmlns:android=\"http://schemas.android.com/apk/res/android\">\n\n" +
    "    <uses-permission android:name=\"android.permission.INTERNET\" />\n\n" +
    "    <application\n" +
    "        android:allowBackup=\"true\"\n" +
    "        android:icon=\"@mipmap/ic_launcher\"\n" +
    "        "

  const ManifestTail: string :=
    "\n" +
    "        android:theme=\"@android:style/Theme.Material.Light\">\n" +
    "        <activity\n" +
    "            android:name=\".MainActivity\"\n" +
    "            android:exported=\"true\">\n" +
    "            <intent-filter>\n" +
    "                <action android:name=\"android.intent.action.MAIN\" />\n" +
    "                <category android:name=\"android.intent.category.LAUNCHER\" />\n" +
    "            </intent-filter>\n" +
    "        </activity>\n" +
    "    </application>\n\n" +
    "</manifest>"

  function LabelAttribute(appName: string): string { "android:label=\"" + appName + "\"" }

  /** app/src/main/AndroidManifest.xml: labelled with the application name. */
  function Manifest(appName: string): string
  {
    ManifestHead + LabelAttribute(appName) + ManifestTail
  }

  /** The module descriptor declares pkg as its namespace and as its applicationId. */
  lemma AppGradleDeclaresPackage(pkg: string)
    ensures Contains(AppGradle(pkg), NamespaceLine(pkg))
    ensures Contains(AppGradle(pkg), ApplicationIdLine(pkg))
  {
    ContainsMiddle(AppGradleHead, NamespaceLine(pkg), AppGradleMiddle + ApplicationIdLine(pkg) + AppGradleTail);
    assert AppGradle(pkg) == AppGradleHead + NamespaceLine(pkg) + (AppGradleMiddle + ApplicationIdLine(pkg) + AppGradleTail);
    ContainsMiddle(AppGradleHead + NamespaceLine(pkg) + AppGradleMiddle, ApplicationIdLine(pkg), AppGradleTail);
  }

  /** The manifest's application label is the name. */
  lemma ManifestLabelsApp(appName: string)
    ensures Contains(Manifest(appName), LabelAttribute(appName))
  {
    ContainsMiddle(ManifestHead, LabelAttribute(appName), ManifestTail);
  }

  /** The settings descriptor names the root project, and different names give
      different settings files. */
  lemma SettingsNamesProject(a: string, b: string)
    ensures SettingsGradle(a) == "rootProject.name = '" + a + "'\ninclude ':app'"
    ensures SettingsGradle(a) == SettingsGradle(b) ==> a == b
  {
    var pre := "rootProject.name = '";
    var post := "'\ninclude ':app'";
    if SettingsGradle(a) == SettingsGradle(b) {
      assert |a| == |b|;
      assert a == SettingsGradle(a)[|pre|..|pre| + |a|];
      assert b == SettingsGradle(b)[|pre|..|pre| + |b|];
    }
  }
}
